/** The key under which a page of the public broadcast list is cached. */
module CacheKey {
  import opened Wrappers
  import opened Types
  import opened Text
  import opened Keyset
  import opened Pagination
  import UuidText

  datatype Status = Active | Inactive

  datatype SortBy = CreatedAt | Title | StartTime | EndTime | TotalParticipants

  datatype Range<T> = Range(gt: Option<T>, gte: Option<T>, lt: Option<T>, lte: Option<T>)

  /** A list request; `cursor` is the text the client sent, of any content. */
  datatype Query = Query(creatorId: Option<Uuid>, status: Option<Status>, keywords: Option<string>, onlySubscriptions: Option<bool>,
                         start: Range<Timestamp>, end: Range<Timestamp>, startExists: Option<bool>, endExists: Option<bool>,
                         sortBy: Option<SortBy>, order: Option<Order>, cursor: Option<string>, limit: Option<int>)

  /** What a cached answer depends on, with defaults resolved. */
  datatype Normal = Normal(creator: Option<Uuid>, keyword: Option<nat>, status: Option<Status>, start: Range<int>, end: Range<int>,
                           startExists: Option<bool>, endExists: Option<bool>, sort: SortBy, order: Order, cursor: string, limit: nat)

  function Mapped<S, T>(o: Option<S>, f: S -> T): Option<T> {
    if o.Some? then Some(f(o.value)) else None
  }

  /** `unix_timestamp`: whole seconds, rounded down. */
  function Seconds(t: Timestamp): int {
    t / 1_000_000_000
  }

  function InSeconds(r: Range<Timestamp>): Range<int> {
    Range(Mapped(r.gt, Seconds), Mapped(r.gte, Seconds), Mapped(r.lt, Seconds), Mapped(r.lte, Seconds))
  }

  function Normalized(hash: string -> nat, q: Query): Normal {
    Normal(q.creatorId, Mapped(q.keywords, hash), q.status, InSeconds(q.start), InSeconds(q.end), q.startExists, q.endExists,
           q.sortBy.GetOr(CreatedAt), q.order.GetOr(Desc), q.cursor.GetOr(""), Limit(q.limit))
  }

  function StatusName(s: Status): (name: string)
    ensures ':' !in name
  {
    match s
    case Active => "Active"
    case Inactive => "Inactive"
  }

  function SortName(s: SortBy): (name: string)
    ensures ':' !in name
  {
    match s
    case CreatedAt => "CreatedAt"
    case Title => "Title"
    case StartTime => "StartTime"
    case EndTime => "EndTime"
    case TotalParticipants => "TotalParticipants"
  }

  function OrderName(o: Order): (name: string)
    ensures ':' !in name
  {
    match o
    case Desc => "Desc"
    case Asc => "Asc"
  }

  function Bit(b: bool): (name: string)
    ensures ':' !in name
  {
    if b then "1" else "0"
  }

  function Hex(n: nat): (s: string)
    ensures ':' !in s
  {
    PrintNat(n, 16)
  }

  /** A segment that is written only when it has a value. */
  datatype Field = Field(tag: string, value: Option<string>)

  function FieldText(f: Field): string
    requires f.value.Some?
  {
    f.tag + "=" + f.value.value
  }

  function Present(fields: seq<Field>): seq<string> {
    if fields == [] then []
    else (if fields[0].value.Some? then [FieldText(fields[0])] else []) + Present(fields[1..])
  }

  function Join(parts: seq<string>): string {
    if parts == [] then "" else if |parts| == 1 then parts[0] else parts[0] + ":" + Join(parts[1..])
  }

  const TAGS := ["cid", "kw", "s", "stgt", "stge", "stlt", "stle", "etgt", "etge", "etlt", "etle", "ste", "ete", "sb", "ord"]

  function FilterValue(n: Normal, k: nat): Option<string>
    requires k < |TAGS|
  {
    if k == 0 then Mapped(n.creator, UuidText.Print)
    else if k == 1 then Mapped(n.keyword, Hex)
    else if k == 2 then Mapped(n.status, StatusName)
    else if k == 3 then Mapped(n.start.gt, PrintInt)
    else if k == 4 then Mapped(n.start.gte, PrintInt)
    else if k == 5 then Mapped(n.start.lt, PrintInt)
    else if k == 6 then Mapped(n.start.lte, PrintInt)
    else if k == 7 then Mapped(n.end.gt, PrintInt)
    else if k == 8 then Mapped(n.end.gte, PrintInt)
    else if k == 9 then Mapped(n.end.lt, PrintInt)
    else if k == 10 then Mapped(n.end.lte, PrintInt)
    else if k == 11 then Mapped(n.startExists, Bit)
    else if k == 12 then Mapped(n.endExists, Bit)
    else if k == 13 then Some(SortName(n.sort))
    else Some(OrderName(n.order))
  }

  /** All fields but the cursor and the limit. */
  function Filters(n: Normal): (fields: seq<Field>)
    ensures |fields| == |TAGS|
    ensures forall k | 0 <= k < |TAGS| :: fields[k] == Field(TAGS[k], FilterValue(n, k))
  {
    seq(|TAGS|, k requires 0 <= k < |TAGS| => Field(TAGS[k], FilterValue(n, k)))
  }

  function Fields(n: Normal): seq<Field> {
    Filters(n) + [Field("cur", Some(n.cursor)), Field("lim", Some(PrintInt(n.limit)))]
  }

  function Key(n: Normal): string {
    "bc:list:" + Join(Present(Fields(n)))
  }

  method PushField(parts: seq<string>, ghost fields: seq<Field>, ghost k: nat, tag: string, value: Option<string>)
    returns (parts': seq<string>)
    requires k < |fields| && fields[k] == Field(tag, value)
    requires parts == Present(fields[..k])
    ensures parts' == Present(fields[..k + 1])
  {
    PresentSnoc(fields[..k], Field(tag, value));
    assert fields[..k + 1] == fields[..k] + [Field(tag, value)];
    parts' := parts;
    if value.Some? {
      parts' := parts' + [tag + "=" + value.value];
    }
  }

  lemma {:induction false} PresentSnoc(fields: seq<Field>, f: Field)
    ensures Present(fields + [f]) == Present(fields) + if f.value.Some? then [FieldText(f)] else []
  {
    if fields == [] {
      assert ([f])[1..] == [];
    } else {
      PresentSnoc(fields[1..], f);
      assert (fields + [f])[1..] == fields[1..] + [f];
    }
  }

  function Stamp(t: Option<Timestamp>): Option<string> {
    Mapped(Mapped(t, Seconds), PrintInt)
  }

  method PushRange(parts: seq<string>, ghost fields: seq<Field>, ghost k: nat, gt: string, gte: string, lt: string, lte: string,
                   r: Range<Timestamp>)
    returns (parts': seq<string>)
    requires k + 4 <= |fields| && fields[k] == Field(gt, Stamp(r.gt)) && fields[k + 1] == Field(gte, Stamp(r.gte))
    requires fields[k + 2] == Field(lt, Stamp(r.lt)) && fields[k + 3] == Field(lte, Stamp(r.lte))
    requires parts == Present(fields[..k])
    ensures parts' == Present(fields[..k + 4])
  {
    hide Stamp, Present;
    parts' := PushField(parts, fields, k, gt, Stamp(r.gt));
    parts' := PushField(parts', fields, k + 1, gte, Stamp(r.gte));
    parts' := PushField(parts', fields, k + 2, lt, Stamp(r.lt));
    parts' := PushField(parts', fields, k + 3, lte, Stamp(r.lte));
  }

  lemma NothingPresent()
    ensures Present([]) == []
  {
  }

  /** The segments in front of the cursor. */
  method PushFilters(hash: string -> nat, q: Query) returns (parts: seq<string>)
    ensures parts == Present(Filters(Normalized(hash, q)))
  {
    NothingPresent();
    hide UuidText.Print, Hex, PrintInt, Bit, StatusName, SortName, OrderName, Seconds, Limit, Mapped, Present, Join, Filters;
    ghost var fields := Filters(Normalized(hash, q));
    parts := [];
    assert fields[..0] == [];
    parts := PushField(parts, fields, 0, "cid", Mapped(q.creatorId, UuidText.Print));
    parts := PushField(parts, fields, 1, "kw", Mapped(Mapped(q.keywords, hash), Hex));
    parts := PushField(parts, fields, 2, "s", Mapped(q.status, StatusName));
    parts := PushRange(parts, fields, 3, "stgt", "stge", "stlt", "stle", q.start);
    parts := PushRange(parts, fields, 7, "etgt", "etge", "etlt", "etle", q.end);
    parts := PushField(parts, fields, 11, "ste", Mapped(q.startExists, Bit));
    parts := PushField(parts, fields, 12, "ete", Mapped(q.endExists, Bit));
    parts := PushField(parts, fields, 13, "sb", Some(SortName(q.sortBy.GetOr(CreatedAt))));
    parts := PushField(parts, fields, 14, "ord", Some(OrderName(q.order.GetOr(Desc))));
    assert fields[..15] == fields;
  }

  /** No key for a personal feed; otherwise the key of what the request means. */
  method Build(hash: string -> nat, q: Query) returns (key: Option<string>)
    ensures key == if q.onlySubscriptions == Some(true) then None else Some(Key(Normalized(hash, q)))
  {
    hide PrintInt, Limit, Present, Join, Filters;
    if q.onlySubscriptions == Some(true) {
      return None;
    }
    var parts := PushFilters(hash, q);
    ghost var fields := Fields(Normalized(hash, q));
    assert fields[..15] == Filters(Normalized(hash, q));
    parts := PushField(parts, fields, 15, "cur", Some(q.cursor.GetOr("")));
    parts := PushField(parts, fields, 16, "lim", Some(PrintInt(Limit(q.limit))));
    assert fields[..17] == fields;
    key := Some("bc:list:" + Join(parts));
  }

  // ---- reading a key back ----

  /** The joined fields, each followed by its colon, in front of `rest`. */
  function Prefixed(fields: seq<Field>, rest: string): string {
    if fields == [] then rest
    else (if fields[0].value.Some? then fields[0].tag + "=" + fields[0].value.value + ":" else "") + Prefixed(fields[1..], rest)
  }

  lemma {:induction false} JoinIsPrefixed(fields: seq<Field>, a: Field, b: Field)
    requires a.value.Some? && b.value.Some?
    ensures Join(Present(fields + [a, b])) == Prefixed(fields, FieldText(a) + ":" + FieldText(b))
  {
    if fields == [] {
      assert fields + [a, b] == [a, b] && [a, b][1..] == [b] && [b][1..] == [];
      assert Present([b]) == [FieldText(b)];
      assert Present([a, b]) == [FieldText(a), FieldText(b)];
      assert [FieldText(a), FieldText(b)][1..] == [FieldText(b)];
    } else {
      JoinIsPrefixed(fields[1..], a, b);
      assert (fields + [a, b])[1..] == fields[1..] + [a, b];
      var rest := Present(fields[1..] + [a, b]);
      NotEmpty(fields[1..], a, b);
      if fields[0].value.Some? {
        var parts := Present(fields + [a, b]);
        assert parts == [FieldText(fields[0])] + rest && parts[1..] == rest;
      } else {
        assert [] + rest == rest;
      }
    }
  }

  lemma NotEmpty(fields: seq<Field>, a: Field, b: Field)
    requires b.value.Some?
    ensures Present(fields + [a, b]) != []
  {
    PresentSnoc(fields + [a], b);
    assert fields + [a] + [b] == fields + [a, b];
  }

  predicate Colonless(f: Field) {
    '=' !in f.tag && (f.value.Some? ==> ':' !in f.value.value)
  }

  /** The tag a text starts with. */
  function FirstTag(fields: seq<Field>, last: string): string {
    if fields == [] then last else if fields[0].value.Some? then fields[0].tag else FirstTag(fields[1..], last)
  }

  lemma {:induction false} StartsWithTag(fields: seq<Field>, last: string, rest: string)
    requires '=' !in last && forall i | 0 <= i < |fields| :: Colonless(fields[i])
    ensures var split := SplitOnce(Prefixed(fields, last + "=" + rest), '='); split.Some? && split.value.0 == FirstTag(fields, last)
    ensures FirstTag(fields, last) == last || exists i :: 0 <= i < |fields| && FirstTag(fields, last) == fields[i].tag
  {
    if fields == [] {
      SplitAt(last, '=', rest);
    } else if fields[0].value.Some? {
      var more := Prefixed(fields[1..], last + "=" + rest);
      assert Prefixed(fields, last + "=" + rest) == fields[0].tag + ['='] + (fields[0].value.value + ":" + more);
      SplitAt(fields[0].tag, '=', fields[0].value.value + ":" + more);
    } else {
      StartsWithTag(fields[1..], last, rest);
      assert Prefixed(fields, last + "=" + rest) == Prefixed(fields[1..], last + "=" + rest);
    }
  }

  predicate SameTags(fields: seq<Field>, fields': seq<Field>) {
    |fields| == |fields'| && forall i | 0 <= i < |fields| :: fields[i].tag == fields'[i].tag
  }

  ghost predicate Readable(fields: seq<Field>, last: string) {
    && '=' !in last
    && (forall i | 0 <= i < |fields| :: Colonless(fields[i]) && fields[i].tag != last)
    && (forall i, j | 0 <= i < j < |fields| :: fields[i].tag != fields[j].tag)
  }

  lemma SameFront(tag: string, value: string, more: string, value': string, more': string)
    requires ':' !in value && ':' !in value'
    requires tag + "=" + value + ":" + more == tag + "=" + value' + ":" + more'
    ensures value == value' && more == more'
  {
    var n := |tag| + 1;
    assert (tag + "=" + value + ":" + more)[n..] == value + [':'] + more;
    assert (tag + "=" + value' + ":" + more')[n..] == value' + [':'] + more';
    SplitAt(value, ':', more);
    SplitAt(value', ':', more');
  }

  /** Distinct tags and colon-free values make the optional fields readable from the left, whatever follows. */
  lemma {:induction false} FieldsReadBack(fields: seq<Field>, fields': seq<Field>, last: string, rest: string, rest': string)
    requires SameTags(fields, fields') && Readable(fields, last) && Readable(fields', last)
    requires Prefixed(fields, last + "=" + rest) == Prefixed(fields', last + "=" + rest')
    ensures fields == fields' && rest == rest'
  {
    if fields == [] {
      var end, end' := last + "=" + rest, last + "=" + rest';
      assert end[|last| + 1..] == rest && end'[|last| + 1..] == rest';
    } else {
      FirstFieldReadsBack(fields, fields', last, rest, rest');
      hide Prefixed;
      FieldsReadBack(fields[1..], fields'[1..], last, rest, rest');
      assert fields == [fields[0]] + fields[1..] && fields' == [fields'[0]] + fields'[1..];
    }
  }

  lemma PrefixedFirst(fields: seq<Field>, rest: string)
    requires fields != []
    ensures var f, more := fields[0], Prefixed(fields[1..], rest);
            Prefixed(fields, rest) == if f.value.Some? then f.tag + "=" + f.value.value + ":" + more else more
  {
  }

  lemma FirstFieldReadsBack(fields: seq<Field>, fields': seq<Field>, last: string, rest: string, rest': string)
    requires SameTags(fields, fields') && Readable(fields, last) && Readable(fields', last) && fields != []
    requires Prefixed(fields, last + "=" + rest) == Prefixed(fields', last + "=" + rest')
    ensures fields[0] == fields'[0]
    ensures Prefixed(fields[1..], last + "=" + rest) == Prefixed(fields'[1..], last + "=" + rest')
  {
    hide Prefixed, SplitOnce;
    var end, end' := last + "=" + rest, last + "=" + rest';
    var f, f' := fields[0], fields'[0];
    PrefixedFirst(fields, end);
    PrefixedFirst(fields', end');
    if f.value.Some? && f'.value.Some? {
      SameFront(f.tag, f.value.value, Prefixed(fields[1..], end), f'.value.value, Prefixed(fields'[1..], end'));
    } else {
      StartsWithTag(fields, last, rest);
      StartsWithTag(fields', last, rest');
      StartsWithTag(fields[1..], last, rest);
      StartsWithTag(fields'[1..], last, rest');
      assert f.value.None? && f'.value.None?;
    }
  }

  /** The limit is read from the right: its digits hold no colon, so a cursor with colons or `lim=` in it cannot confuse it. */
  lemma CursorReadsBack(cursor: string, digits: string, cursor': string, digits': string)
    requires ':' !in digits && ':' !in digits'
    requires cursor + ":lim=" + digits == cursor' + ":lim=" + digits'
    ensures cursor == cursor' && digits == digits'
  {
    var s, s' := cursor + ":lim=" + digits, cursor' + ":lim=" + digits';
    if |digits| < |digits'| {
      assert |s| == |s'|;
      LastColon(cursor, digits, cursor', digits');
    } else if |digits'| < |digits| {
      assert |s| == |s'|;
      LastColon(cursor', digits', cursor, digits);
    } else {
      assert s[..|cursor|] == cursor && s'[..|cursor|] == cursor';
      assert s[|cursor| + 5..] == digits && s'[|cursor| + 5..] == digits';
    }
  }

  /** With fewer digits the last colon comes later, where the other text has a digit or a letter. */
  lemma LastColon(cursor: string, digits: string, cursor': string, digits': string)
    requires ':' !in digits' && |digits| < |digits'| && |cursor| + |digits| == |cursor'| + |digits'|
    ensures (cursor + ":lim=" + digits)[|cursor|] == ':' && (cursor' + ":lim=" + digits')[|cursor|] != ':'
  {
  }

  lemma SameInt(o: Option<int>, o': Option<int>)
    requires Mapped(o, PrintInt) == Mapped(o', PrintInt)
    ensures o == o'
  {
    if o.Some? && o'.Some? {
      var lo, hi := if o.value < o'.value then o.value else o'.value, if o.value < o'.value then o'.value else o.value;
      ParsePrintInt(o.value, lo, hi);
      ParsePrintInt(o'.value, lo, hi);
    }
  }

  lemma SameTimes(n: Normal, n': Normal)
    requires forall k | 3 <= k < 11 :: FilterValue(n, k) == FilterValue(n', k)
    ensures n.start == n'.start && n.end == n'.end
  {
    assert FilterValue(n, 3) == FilterValue(n', 3) && FilterValue(n, 4) == FilterValue(n', 4);
    assert FilterValue(n, 5) == FilterValue(n', 5) && FilterValue(n, 6) == FilterValue(n', 6);
    assert FilterValue(n, 7) == FilterValue(n', 7) && FilterValue(n, 8) == FilterValue(n', 8);
    assert FilterValue(n, 9) == FilterValue(n', 9) && FilterValue(n, 10) == FilterValue(n', 10);
    hide PrintInt, Mapped;
    SameInt(n.start.gt, n'.start.gt);
    SameInt(n.start.gte, n'.start.gte);
    SameInt(n.start.lt, n'.start.lt);
    SameInt(n.start.lte, n'.start.lte);
    SameInt(n.end.gt, n'.end.gt);
    SameInt(n.end.gte, n'.end.gte);
    SameInt(n.end.lt, n'.end.lt);
    SameInt(n.end.lte, n'.end.lte);
  }

  lemma SameHead(n: Normal, n': Normal)
    requires FilterValue(n, 0) == FilterValue(n', 0) && FilterValue(n, 1) == FilterValue(n', 1)
    ensures n.creator == n'.creator && n.keyword == n'.keyword
  {
    if n.creator.Some? && n'.creator.Some? {
      UuidText.ParsePrint(n.creator.value);
      UuidText.ParsePrint(n'.creator.value);
    }
    if n.keyword.Some? && n'.keyword.Some? {
      ParsePrintNat(n.keyword.value, 16);
      ParsePrintNat(n'.keyword.value, 16);
    }
  }

  lemma SameNames(n: Normal, n': Normal)
    requires FilterValue(n, 2) == FilterValue(n', 2)
    requires FilterValue(n, 11) == FilterValue(n', 11) && FilterValue(n, 12) == FilterValue(n', 12)
    requires FilterValue(n, 13) == FilterValue(n', 13) && FilterValue(n, 14) == FilterValue(n', 14)
    ensures n.status == n'.status && n.startExists == n'.startExists && n.endExists == n'.endExists
    ensures n.sort == n'.sort && n.order == n'.order
  {
    assert forall s :: StatusName(s)[0] == if s.Active? then 'A' else 'I';
    assert forall s :: |SortName(s)| == match s case CreatedAt => 9 case Title => 5 case StartTime => 9 case EndTime => 7 case TotalParticipants => 17;
    assert SortName(CreatedAt)[0] == 'C' && SortName(StartTime)[0] == 'S';
    assert forall b :: Bit(b)[0] == if b then '1' else '0';
    assert forall o :: OrderName(o)[0] == if o.Desc? then 'D' else 'A';
  }

  /** Two requests share a key exactly when they mean the same. */
  lemma KeysAgreeExactly(n: Normal, n': Normal)
    ensures Key(n) == Key(n') <==> n == n'
  {
    hide Key, Filters, Readable, Prefixed;
    if Key(n) == Key(n') {
      var lim, lim' := PrintInt(n.limit), PrintInt(n'.limit);
      KeyIsPrefixed(n);
      KeyIsPrefixed(n');
      FiltersAreReadable(n);
      FiltersAreReadable(n');
      SameFilterTags(n, n');
      FieldsReadBack(Filters(n), Filters(n'), "cur", n.cursor + ":lim=" + lim, n'.cursor + ":lim=" + lim');
      CursorReadsBack(n.cursor, lim, n'.cursor, lim');
      FiltersDecide(n, n');
      SameInt(Some(n.limit), Some(n'.limit));
    }
  }

  lemma SameFilterTags(n: Normal, n': Normal)
    ensures SameTags(Filters(n), Filters(n'))
  {
  }

  lemma KeyIsPrefixed(n: Normal)
    ensures Key(n)[8..] == Prefixed(Filters(n), "cur" + "=" + (n.cursor + ":lim=" + PrintInt(n.limit)))
  {
    hide Filters;
    var cur, lim := Field("cur", Some(n.cursor)), Field("lim", Some(PrintInt(n.limit)));
    JoinIsPrefixed(Filters(n), cur, lim);
    assert FieldText(cur) + ":" + FieldText(lim) == "cur" + "=" + (n.cursor + ":lim=" + PrintInt(n.limit));
  }

  lemma FiltersAreReadable(n: Normal)
    ensures Readable(Filters(n), "cur")
  {
    TagsDiffer();
    ValuesHaveNoColon(n);
    hide Filters;
  }

  lemma ValuesHaveNoColon(n: Normal)
    ensures forall i | 0 <= i < |TAGS| && Filters(n)[i].value.Some? :: ':' !in Filters(n)[i].value.value
  {
  }

  lemma TagsDiffer()
    ensures forall i | 0 <= i < |TAGS| :: TAGS[i] != "cur" && '=' !in TAGS[i]
    ensures forall i, j | 0 <= i < j < |TAGS| :: TAGS[i] != TAGS[j]
    ensures '=' !in "cur"
  {
  }

  lemma FiltersDecide(n: Normal, n': Normal)
    requires Filters(n) == Filters(n')
    ensures n.(cursor := n'.cursor, limit := n'.limit) == n'
  {
    hide Filters, FilterValue;
    var f, f' := Filters(n), Filters(n');
    assert forall k | 0 <= k < |TAGS| :: f[k] == f'[k] && FilterValue(n, k) == FilterValue(n', k);
    SameHead(n, n');
    SameNames(n, n');
    SameTimes(n, n');
  }

  // ---- the same on requests ----

  /** Both absent, or in the same whole second. */
  ghost predicate SameSecond(t: Option<Timestamp>, t': Option<Timestamp>) {
    (t.Some? <==> t'.Some?) && (t.Some? ==> exists s: int :: InSecond(t.value, s) && InSecond(t'.value, s))
  }

  predicate InSecond(t: Timestamp, s: int) {
    s * 1_000_000_000 <= t < (s + 1) * 1_000_000_000
  }

  ghost predicate SameSeconds(r: Range<Timestamp>, r': Range<Timestamp>) {
    SameSecond(r.gt, r'.gt) && SameSecond(r.gte, r'.gte) && SameSecond(r.lt, r'.lt) && SameSecond(r.lte, r'.lte)
  }

  predicate SameOrDefault<T(==)>(o: Option<T>, o': Option<T>, default: T) {
    (if o.Some? then o.value else default) == (if o'.Some? then o'.value else default)
  }

  predicate SameLimit(l: Option<int>, l': Option<int>) {
    var n, n' := if l.Some? then l.value else 20, if l'.Some? then l'.value else 20;
    n == n' || (n <= 1 && n' <= 1) || (n >= 100 && n' >= 100)
  }

  /** Two requests ask for the same page of the same list. */
  ghost predicate AskTheSame(hash: string -> nat, q: Query, q': Query) {
    && q.creatorId == q'.creatorId && q.status == q'.status
    && (q.keywords.Some? <==> q'.keywords.Some?) && (q.keywords.Some? ==> hash(q.keywords.value) == hash(q'.keywords.value))
    && SameSeconds(q.start, q'.start) && SameSeconds(q.end, q'.end)
    && q.startExists == q'.startExists && q.endExists == q'.endExists
    && SameOrDefault(q.sortBy, q'.sortBy, CreatedAt) && SameOrDefault(q.order, q'.order, Desc)
    && SameOrDefault(q.cursor, q'.cursor, "") && SameLimit(q.limit, q'.limit)
  }

  lemma SecondsExactly(t: Option<Timestamp>, t': Option<Timestamp>)
    ensures Mapped(t, Seconds) == Mapped(t', Seconds) <==> SameSecond(t, t')
  {
    if t.Some? {
      assert InSecond(t.value, Seconds(t.value));
    }
    if t'.Some? {
      assert InSecond(t'.value, Seconds(t'.value));
    }
  }

  lemma RangesExactly(r: Range<Timestamp>, r': Range<Timestamp>)
    ensures InSeconds(r) == InSeconds(r') <==> SameSeconds(r, r')
  {
    hide Mapped, SameSecond, Seconds;
    SecondsExactly(r.gt, r'.gt);
    SecondsExactly(r.gte, r'.gte);
    SecondsExactly(r.lt, r'.lt);
    SecondsExactly(r.lte, r'.lte);
  }

  /** Two requests share a key exactly when they ask the same, keywords compared by their hash. */
  lemma RequestsShareKeyExactly(hash: string -> nat, q: Query, q': Query)
    ensures Key(Normalized(hash, q)) == Key(Normalized(hash, q')) <==> AskTheSame(hash, q, q')
  {
    hide Key, InSeconds, SameSeconds;
    KeysAgreeExactly(Normalized(hash, q), Normalized(hash, q'));
    RangesExactly(q.start, q'.start);
    RangesExactly(q.end, q'.end);
  }

  lemma TwoFields(a: Field, b: Field, rest: string)
    requires a.value.Some? && b.value.Some?
    ensures Prefixed([a, b], rest) == FieldText(a) + ":" + (FieldText(b) + ":" + rest)
  {
    assert [a, b][1..] == [b] && [b][1..] == [];
    assert Prefixed([b], rest) == FieldText(b) + ":" + rest;
  }

  lemma DefaultFilters(n: Normal)
    requires n == Normal(None, None, None, Range(None, None, None, None), Range(None, None, None, None), None, None, CreatedAt, Desc, "", 20)
    ensures forall k | 0 <= k < 13 :: Filters(n)[k].value.None?
    ensures Filters(n)[13..] == [Field("sb", Some("CreatedAt")), Field("ord", Some("Desc"))]
  {
  }

  lemma DefaultTail(n: Normal)
    requires n == Normal(None, None, None, Range(None, None, None, None), Range(None, None, None, None), None, None, CreatedAt, Desc, "", 20)
    ensures Key(n)[8..] == "sb" + "=" + "CreatedAt" + ":" + ("ord" + "=" + "Desc" + ":" + ("cur" + "=" + ("" + ":lim=" + "20")))
  {
    DefaultFilters(n);
    Twenty();
    KeyIsPrefixed(n);
    hide Filters, Key, Prefixed, PrintInt;
    var rest := "cur" + "=" + ("" + ":lim=" + "20");
    SkipsAbsent(Filters(n), 13, rest);
    TwoFields(Field("sb", Some("CreatedAt")), Field("ord", Some("Desc")), rest);
  }

  /** The key of a request without any parameter: bc:list:sb=CreatedAt:ord=Desc:cur=:lim=20. */
  lemma DefaultKey(hash: string -> nat, q: Query)
    requires q == Query(None, None, None, None, Range(None, None, None, None), Range(None, None, None, None), None, None, None, None, None, None)
    ensures Key(Normalized(hash, q))
         == "bc:list:" + ("sb" + "=" + "CreatedAt" + ":" + ("ord" + "=" + "Desc" + ":" + ("cur" + "=" + ("" + ":lim=" + "20"))))
  {
    var n := Normal(None, None, None, Range(None, None, None, None), Range(None, None, None, None), None, None, CreatedAt, Desc, "", 20);
    assert Normalized(hash, q) == n;
    KeyStart(n);
    DefaultTail(n);
    hide Key, Normalized;
    assert Key(n) == Key(n)[..8] + Key(n)[8..];
  }

  lemma Twenty()
    ensures PrintInt(20) == "20"
  {
    assert PrintNat(20, 10) == PrintNat(2, 10) + [Digit(0)];
  }

  lemma KeyStart(n: Normal)
    ensures |Key(n)| >= 8 && Key(n)[..8] == "bc:list:"
  {
    hide Filters, Join, Present;
  }

  lemma {:induction false} SkipsAbsent(fields: seq<Field>, n: nat, rest: string)
    requires n <= |fields| && forall k | 0 <= k < n :: fields[k].value.None?
    ensures Prefixed(fields, rest) == Prefixed(fields[n..], rest)
    decreases n
  {
    if n == 0 {
      assert fields[0..] == fields;
    } else {
      SkipsAbsent(fields[1..], n - 1, rest);
      assert fields[1..][n - 1..] == fields[n..];
      assert Prefixed(fields, rest) == "" + Prefixed(fields[1..], rest);
    }
  }
}
