/** The opaque page cursors: four shapes of text, UTF-8 and base64 encoded. */
module Cursors {
  import opened Wrappers
  import opened Types
  import opened Text
  import Utf8
  import Base64
  import UuidText

  type Cursor = string

  datatype CursorError = InvalidEncoding | InvalidShape | InvalidTimestamp

  const I128_MAX := 0x7fff_ffff_ffff_ffff_ffff_ffff_ffff_ffff
  const I64_MAX := 0x7fff_ffff_ffff_ffff

  type Score = n: int | -I64_MAX - 1 <= n <= I64_MAX

  function Wrap(raw: string): Cursor {
    Base64.Encode(Utf8.Encode(raw))
  }

  function Unwrap(c: Cursor): Result<string, CursorError> {
    match Base64.Decode(c)
    case None => Err(InvalidEncoding)
    case Some(bytes) =>
      match Utf8.Decode(bytes)
      case None => Err(InvalidEncoding)
      case Some(s) => Ok(s)
  }

  function FromTimestampId(ts: Timestamp, id: Uuid): Cursor {
    Wrap(PrintInt(ts) + "|" + UuidText.Print(id))
  }

  function FromTwoTimestampsId(ts1: Timestamp, ts2: Timestamp, id: Uuid): Cursor {
    Wrap(PrintInt(ts1) + ":" + PrintInt(ts2) + "|" + UuidText.Print(id))
  }

  function FromScoreId(score: Score, id: Uuid): Cursor {
    Wrap("score:" + PrintInt(score) + "|" + UuidText.Print(id))
  }

  function FromNameId(name: string, id: Uuid): Cursor {
    Wrap("name:" + name + "|" + UuidText.Print(id))
  }

  function ToResult<T>(o: Option<T>, e: CursorError): (r: Result<T, CursorError>)
  {
    if o.Some? then Ok(o.value) else Err(e)
  }

  function ParseNanos(s: string): Result<int, CursorError> {
    ToResult(ParseInt(s, -I128_MAX - 1, I128_MAX), InvalidShape)
  }

  function ToTimestamp(nanos: int): Result<Timestamp, CursorError> {
    if MIN_NANOS <= nanos <= MAX_NANOS then Ok(nanos) else Err(InvalidTimestamp)
  }

  function ToTimestampId(c: Cursor): Result<(Timestamp, Uuid), CursorError> {
    var s :- Unwrap(c);
    ParseTimestampId(s)
  }

  function ParseTimestampId(s: string): Result<(Timestamp, Uuid), CursorError> {
    var parts :- ToResult(SplitOnce(s, '|'), InvalidShape);
    var nanos :- ParseNanos(parts.0);
    var id :- ToResult(UuidText.Parse(parts.1), InvalidShape);
    var ts :- ToTimestamp(nanos);
    Ok((ts, id))
  }

  function ToTwoTimestampsId(c: Cursor): Result<(Timestamp, Timestamp, Uuid), CursorError> {
    var s :- Unwrap(c);
    ParseTwoTimestampsId(s)
  }

  function ParseTwoTimestampsId(s: string): Result<(Timestamp, Timestamp, Uuid), CursorError> {
    var parts :- ToResult(SplitOnce(s, '|'), InvalidShape);
    var stamps :- ToResult(SplitOnce(parts.0, ':'), InvalidShape);
    var n1 :- ParseNanos(stamps.0);
    var n2 :- ParseNanos(stamps.1);
    var id :- ToResult(UuidText.Parse(parts.1), InvalidShape);
    var ts1 :- ToTimestamp(n1);
    var ts2 :- ToTimestamp(n2);
    Ok((ts1, ts2, id))
  }

  function ToScoreId(c: Cursor): Result<(Score, Uuid), CursorError> {
    var s :- Unwrap(c);
    ParseScoreId(s)
  }

  function ParseScoreId(s: string): Result<(Score, Uuid), CursorError> {
    if !HasPrefix(s, "score:") then Err(InvalidShape)
    else
      var parts :- ToResult(SplitOnce(s[6..], '|'), InvalidShape);
      var score :- ToResult(ParseInt(parts.0, -I64_MAX - 1, I64_MAX), InvalidShape);
      var id :- ToResult(UuidText.Parse(parts.1), InvalidShape);
      Ok((score, id))
  }

  function ToNameId(c: Cursor): Result<(string, Uuid), CursorError> {
    var s :- Unwrap(c);
    ParseNameId(s)
  }

  function ParseNameId(s: string): Result<(string, Uuid), CursorError> {
    if !HasPrefix(s, "name:") then Err(InvalidShape)
    else
      var parts :- ToResult(SplitOnce(s[5..], '|'), InvalidShape);
      var id :- ToResult(UuidText.Parse(parts.1), InvalidShape);
      Ok((parts.0, id))
  }

  lemma UnwrapWrap(raw: string)
    ensures Unwrap(Wrap(raw)) == Ok(raw)
  {
    Base64.DecodeEncode(Utf8.Encode(raw));
    Utf8.DecodeEncode(raw);
  }

  /** The text inside each shape of cursor. */
  lemma CursorTexts(ts: Timestamp, ts': Timestamp, score: Score, name: string, id: Uuid)
    ensures Unwrap(FromTimestampId(ts, id)) == Ok(PrintInt(ts) + "|" + UuidText.Print(id))
    ensures Unwrap(FromTwoTimestampsId(ts, ts', id)) == Ok(PrintInt(ts) + ":" + PrintInt(ts') + "|" + UuidText.Print(id))
    ensures Unwrap(FromScoreId(score, id)) == Ok("score:" + PrintInt(score) + "|" + UuidText.Print(id))
    ensures Unwrap(FromNameId(name, id)) == Ok("name:" + name + "|" + UuidText.Print(id))
  {
    hide UuidText.Print, PrintInt, Unwrap, Wrap;
    UnwrapWrap(PrintInt(ts) + "|" + UuidText.Print(id));
    UnwrapWrap(PrintInt(ts) + ":" + PrintInt(ts') + "|" + UuidText.Print(id));
    UnwrapWrap("score:" + PrintInt(score) + "|" + UuidText.Print(id));
    UnwrapWrap("name:" + name + "|" + UuidText.Print(id));
  }

  lemma TimestampIdRoundTrip(ts: Timestamp, id: Uuid)
    ensures ToTimestampId(FromTimestampId(ts, id)) == Ok((ts, id))
  {
    hide UuidText.Print, UuidText.Parse, SplitOnce, PrintInt, ParseInt;
    UnwrapWrap(PrintInt(ts) + "|" + UuidText.Print(id));
    SplitAt(PrintInt(ts), '|', UuidText.Print(id));
    ParsePrintInt(ts, -I128_MAX - 1, I128_MAX);
    UuidText.ParsePrint(id);
  }

  lemma TwoTimestampsIdRoundTrip(ts1: Timestamp, ts2: Timestamp, id: Uuid)
    ensures ToTwoTimestampsId(FromTwoTimestampsId(ts1, ts2, id)) == Ok((ts1, ts2, id))
  {
    hide UuidText.Print, UuidText.Parse, SplitOnce, PrintInt, ParseInt;
    var stamps := PrintInt(ts1) + ":" + PrintInt(ts2);
    UnwrapWrap(stamps + "|" + UuidText.Print(id));
    SplitAt(stamps, '|', UuidText.Print(id));
    SplitAt(PrintInt(ts1), ':', PrintInt(ts2));
    ParsePrintInt(ts1, -I128_MAX - 1, I128_MAX);
    ParsePrintInt(ts2, -I128_MAX - 1, I128_MAX);
    UuidText.ParsePrint(id);
  }

  lemma ParseScoreText(score: Score, id: Uuid)
    ensures ParseScoreId("score:" + PrintInt(score) + "|" + UuidText.Print(id)) == Ok((score, id))
  {
    hide UuidText.Print, UuidText.Parse, SplitOnce, PrintInt, ParseInt;
    var raw := "score:" + PrintInt(score) + "|" + UuidText.Print(id);
    assert HasPrefix(raw, "score:");
    assert raw[6..] == PrintInt(score) + "|" + UuidText.Print(id);
    SplitAt(PrintInt(score), '|', UuidText.Print(id));
    ParsePrintInt(score, -I64_MAX - 1, I64_MAX);
    UuidText.ParsePrint(id);
  }

  lemma ScoreIdRoundTrip(score: Score, id: Uuid)
    ensures ToScoreId(FromScoreId(score, id)) == Ok((score, id))
  {
    UnwrapWrap("score:" + PrintInt(score) + "|" + UuidText.Print(id));
    ParseScoreText(score, id);
  }

  /** A name survives exactly when it has no '|': the decoder splits at the first one. */
  lemma NameIdRoundTrip(name: string, id: Uuid)
    ensures ToNameId(FromNameId(name, id)) == Ok((name, id)) <==> '|' !in name
  {
    hide UuidText.Print, UuidText.Parse, SplitOnce;
    var raw := "name:" + name + "|" + UuidText.Print(id);
    UnwrapWrap(raw);
    assert raw[5..] == name + "|" + UuidText.Print(id);
    if '|' !in name {
      SplitAt(name, '|', UuidText.Print(id));
      UuidText.ParsePrint(id);
    }
  }

  /** Text that starts with a letter is not a number, wherever a later separator cuts it. */
  lemma LettersAreNotNanos(s: string, c: char)
    requires s != [] && !IsDigit(s[0], 10) && s[0] != '-' && s[0] != '+' && s[0] != c
    ensures ParseNanos(s).Err?
    ensures SplitOnce(s, c).Some? ==> SplitOnce(s, c).value.0 != [] && SplitOnce(s, c).value.0[0] == s[0]
  {
  }

  /** A worded cursor has no timestamp shape. */
  lemma WordsAreNotTimestamps(raw: string)
    requires HasPrefix(raw, "score:") || HasPrefix(raw, "name:")
    ensures ParseTimestampId(raw).Err? && ParseTwoTimestampsId(raw).Err?
  {
    assert raw[0] == 's' || raw[0] == 'n';
    LettersAreNotNanos(raw, '|');
    if SplitOnce(raw, '|').Some? {
      var head := SplitOnce(raw, '|').value.0;
      LettersAreNotNanos(head, ':');
      if SplitOnce(head, ':').Some? {
        LettersAreNotNanos(SplitOnce(head, ':').value.0, ':');
      }
    }
  }

  lemma NumbersAreNotWords(raw: string)
    requires raw != [] && (raw[0] == '-' || IsDigit(raw[0], 10))
    ensures ParseScoreId(raw).Err? && ParseNameId(raw).Err?
  {
  }

  lemma TimestampIdIsItsOwnShape(ts: Timestamp, id: Uuid)
    ensures var c := FromTimestampId(ts, id);
            ToTwoTimestampsId(c).Err? && ToScoreId(c).Err? && ToNameId(c).Err?
  {
    var raw := PrintInt(ts) + "|" + UuidText.Print(id);
    UnwrapWrap(raw);
    assert raw[0] == PrintInt(ts)[0];
    NumbersAreNotWords(raw);
    SplitAt(PrintInt(ts), '|', UuidText.Print(id));
  }

  lemma TwoTimestampsIdIsItsOwnShape(ts1: Timestamp, ts2: Timestamp, id: Uuid)
    ensures var c := FromTwoTimestampsId(ts1, ts2, id);
            ToTimestampId(c).Err? && ToScoreId(c).Err? && ToNameId(c).Err?
  {
    var stamps := PrintInt(ts1) + ":" + PrintInt(ts2);
    var raw := stamps + "|" + UuidText.Print(id);
    UnwrapWrap(raw);
    assert raw[0] == PrintInt(ts1)[0];
    NumbersAreNotWords(raw);
    SplitAt(stamps, '|', UuidText.Print(id));
    assert stamps[|PrintInt(ts1)|] == ':';
    assert !IsDigit(':', 10);
    assert ParseNanos(stamps).Err?;
  }

  lemma ScoreIdIsItsOwnShape(score: Score, id: Uuid)
    ensures var c := FromScoreId(score, id);
            ToTimestampId(c).Err? && ToTwoTimestampsId(c).Err? && ToNameId(c).Err?
  {
    var raw := "score:" + PrintInt(score) + "|" + UuidText.Print(id);
    UnwrapWrap(raw);
    assert raw[..6] == "score:";
    assert HasPrefix(raw, "score:");
    WordsAreNotTimestamps(raw);
    assert raw[..5][0] == 's';
  }

  lemma NameIdIsItsOwnShape(name: string, id: Uuid)
    ensures var c := FromNameId(name, id);
            ToTimestampId(c).Err? && ToTwoTimestampsId(c).Err? && ToScoreId(c).Err?
  {
    var raw := "name:" + name + "|" + UuidText.Print(id);
    UnwrapWrap(raw);
    assert raw[..5] == "name:";
    assert HasPrefix(raw, "name:");
    WordsAreNotTimestamps(raw);
    assert raw[..6][0] == 'n';
  }
}
