/** Notification texts: placeholders replaced one variable after another, against replacing all of them at once. */
module Interpolation {
  import opened Wrappers
  import opened Text

  /** `str::replace`: leftmost matches that do not overlap. */
  function Replace(s: string, pattern: string, to: string): string
    requires pattern != []
  {
    if s == [] then []
    else if HasPrefix(s, pattern) then to + Replace(s[|pattern|..], pattern, to)
    else [s[0]] + Replace(s[1..], pattern, to)
  }

  function Placeholder(key: string): (p: string)
    ensures p != []
  {
    "{" + key + "}"
  }

  function Keys(order: seq<string>): set<string> {
    set k | k in order
  }

  ghost predicate Distinct(order: seq<string>) {
    forall i, j | 0 <= i < j < |order| :: order[i] != order[j]
  }

  /** An order in which the variables of a map may be visited. */
  ghost predicate IsOrder(order: seq<string>, vars: map<string, string>) {
    Distinct(order) && Keys(order) == vars.Keys
  }

  /** The replacements in the given order, first to last. */
  function Sequential(template: string, vars: map<string, string>, order: seq<string>): string
    requires Keys(order) <= vars.Keys
  {
    if order == [] then template
    else
      var key := order[|order| - 1];
      assert Keys(order[..|order| - 1]) <= Keys(order);
      assert key in Keys(order);
      Replace(Sequential(template, vars, order[..|order| - 1]), Placeholder(key), vars[key])
  }

  lemma KeysSnoc(order: seq<string>, k: string)
    ensures Keys(order + [k]) == Keys(order) + {k}
  {
  }

  // ---- templates ----

  datatype Piece = Lit(text: string) | Hole(key: string)

  predicate Plain(key: string) {
    '{' !in key && '}' !in key
  }

  /** Literal text opens no brace, and each placeholder is a brace-free key in braces. */
  predicate WellFormed(pieces: seq<Piece>) {
    forall p | p in pieces :: match p case Lit(text) => '{' !in text case Hole(key) => Plain(key)
  }

  function RenderPiece(p: Piece): string {
    match p
    case Lit(text) => text
    case Hole(key) => Placeholder(key)
  }

  function Render(pieces: seq<Piece>): string {
    if pieces == [] then [] else RenderPiece(pieces[0]) + Render(pieces[1..])
  }

  function FillPiece(p: Piece, vars: map<string, string>): Piece {
    if p.Hole? && p.key in vars then Lit(vars[p.key]) else p
  }

  /** Every placeholder with a value replaced, all at once; the others stay. */
  function Simultaneous(pieces: seq<Piece>, vars: map<string, string>): (r: seq<Piece>)
    ensures |r| == |pieces|
  {
    seq(|pieces|, i requires 0 <= i < |pieces| => FillPiece(pieces[i], vars))
  }

  predicate Comparable(a: string, b: string) {
    a <= b || b <= a
  }

  /** No brace in the text can be the start of `{key}`, whatever text comes after. */
  predicate Inert(text: string, key: string) {
    forall i | 0 <= i < |text| && text[i] == '{' :: !Comparable(text[i + 1..], key + "}")
  }

  /** No value can be taken for a part of another variable's placeholder (one that is replaced by itself aside). */
  predicate Separate(vars: map<string, string>) {
    forall k, k' | k in vars && k' in vars && k != k' :: Inert(vars[k], k') || vars[k'] == Placeholder(k')
  }

  predicate PlainKeys(vars: map<string, string>) {
    forall k | k in vars :: Plain(k)
  }

  // ---- one replacement ----

  lemma {:induction false} SkipsInert(text: string, rest: string, key: string, to: string)
    requires Inert(text, key)
    ensures Replace(text + rest, Placeholder(key), to) == text + Replace(rest, Placeholder(key), to)
  {
    if text == [] {
      assert text + rest == rest;
    } else {
      var s := text + rest;
      assert s[1..] == text[1..] + rest;
      NoMatchHere(text, rest, key);
      SkipsInert(text[1..], rest, key, to);
    }
  }

  lemma NoMatchHere(text: string, rest: string, key: string)
    requires text != [] && Inert(text, key)
    ensures Inert(text[1..], key)
    ensures !HasPrefix(text + rest, Placeholder(key))
  {
    forall i | 0 <= i < |text[1..]| && text[1..][i] == '{'
      ensures !Comparable(text[1..][i + 1..], key + "}")
    {
      assert text[1..][i + 1..] == text[i + 2..];
      assert text[i + 1] == '{';
    }
    if text[0] == '{' {
      var m := Difference(text[1..], key + "}");
      assert (text + rest)[m + 1] != Placeholder(key)[m + 1];
    }
  }

  lemma Difference(a: string, b: string) returns (m: nat)
    requires !Comparable(a, b)
    ensures m < |a| && m < |b| && a[m] != b[m]
  {
    if |a| <= |b| {
      assert !(a <= b);
      m :| m < |a| && m < |b| && a[m] != b[m];
    } else {
      assert !(b <= a);
      m :| m < |a| && m < |b| && a[m] != b[m];
    }
  }

  function FillOne(p: Piece, key: string, value: string): Piece {
    if p == Hole(key) then Lit(value) else p
  }

  function Filled(pieces: seq<Piece>, key: string, value: string): (r: seq<Piece>)
    ensures |r| == |pieces|
  {
    seq(|pieces|, i requires 0 <= i < |pieces| => FillOne(pieces[i], key, value))
  }

  /** Nothing but the placeholders of `key` can be matched. */
  predicate Exposes(pieces: seq<Piece>, key: string) {
    forall p | p in pieces :: match p case Lit(text) => Inert(text, key) case Hole(k) => Plain(k)
  }

  lemma {:induction false} OwnPlaceholder(key: string, rest: string, to: string)
    ensures Replace(Placeholder(key) + rest, Placeholder(key), to) == to + Replace(rest, Placeholder(key), to)
  {
  }

  lemma ShorterKey(a: string, b: string)
    requires Plain(b) && |a| < |b|
    ensures !Comparable(a + "}", b + "}") && !Comparable(b + "}", a + "}")
  {
    assert (a + "}")[|a|] == '}' && (b + "}")[|a|] == b[|a|];
  }

  lemma KeyOfSameLength(a: string, b: string)
    requires |a| == |b| && a != b
    ensures !Comparable(a + "}", b + "}")
  {
    assert (a + "}")[..|a|] == a && (b + "}")[..|b|] == b;
  }

  /** Another placeholder is skipped: its key ends at a brace too, so neither key can be the start of the other's text. */
  lemma OtherIsInert(other: string, key: string)
    requires Plain(other) && Plain(key) && other != key
    ensures Inert(Placeholder(other), key)
  {
    var p := Placeholder(other);
    assert p[1..] == other + "}";
    if |other| < |key| {
      ShorterKey(other, key);
    } else if |key| < |other| {
      ShorterKey(key, other);
    } else {
      KeyOfSameLength(other, key);
    }
    forall i | 0 < i < |p|
      ensures p[i] != '{'
    {
      assert i <= |other| ==> p[i] == other[i - 1];
    }
  }

  lemma {:induction false} ReplacesExactlyHoles(pieces: seq<Piece>, key: string, value: string)
    requires Exposes(pieces, key) && Plain(key)
    ensures Replace(Render(pieces), Placeholder(key), value) == Render(Filled(pieces, key, value))
  {
    if pieces != [] {
      var p, rest := pieces[0], pieces[1..];
      assert p in pieces && forall q | q in rest :: q in pieces;
      ReplacesExactlyHoles(rest, key, value);
      assert Filled(pieces, key, value)[1..] == Filled(rest, key, value);
      if p == Hole(key) {
        OwnPlaceholder(key, Render(rest), value);
      } else {
        if p.Hole? {
          OtherIsInert(p.key, key);
        }
        SkipsInert(RenderPiece(p), Render(rest), key, value);
      }
    }
  }

  // ---- all replacements ----

  lemma NoBraceIsInert(text: string, key: string)
    requires '{' !in text
    ensures Inert(text, key)
  {
  }

  function Restricted(vars: map<string, string>, done: set<string>): map<string, string> {
    map k | k in vars && k in done :: vars[k]
  }

  /** Halfway through, what is not yet replaced is still exposed. */
  lemma StillExposed(pieces: seq<Piece>, vars: map<string, string>, done: set<string>, key: string)
    requires WellFormed(pieces) && PlainKeys(vars) && Separate(vars) && key in vars && key !in done
    requires vars[key] != Placeholder(key)
    ensures Exposes(Simultaneous(pieces, Restricted(vars, done)), key)
  {
    var now := Simultaneous(pieces, Restricted(vars, done));
    forall p | p in now
      ensures match p case Lit(text) => Inert(text, key) case Hole(k) => Plain(k)
    {
      var i :| 0 <= i < |now| && now[i] == p;
      assert pieces[i] in pieces;
      if pieces[i].Lit? {
        NoBraceIsInert(pieces[i].text, key);
      }
    }
  }

  lemma FillsOneMore(pieces: seq<Piece>, vars: map<string, string>, done: set<string>, key: string)
    requires key in vars && key !in done
    ensures Filled(Simultaneous(pieces, Restricted(vars, done)), key, vars[key]) == Simultaneous(pieces, Restricted(vars, done + {key}))
  {
  }

  lemma {:induction false} ReplaceByItself(s: string, pattern: string)
    requires pattern != []
    ensures Replace(s, pattern, pattern) == s
    decreases |s|
  {
    if s != [] {
      if HasPrefix(s, pattern) {
        ReplaceByItself(s[|pattern|..], pattern);
        assert s == pattern + s[|pattern|..];
      } else {
        ReplaceByItself(s[1..], pattern);
      }
    }
  }

  lemma {:induction false} FillByItself(pieces: seq<Piece>, key: string)
    ensures Render(Filled(pieces, key, Placeholder(key))) == Render(pieces)
  {
    if pieces != [] {
      FillByItself(pieces[1..], key);
      assert Filled(pieces, key, Placeholder(key))[1..] == Filled(pieces[1..], key, Placeholder(key));
    }
  }

  lemma OneReplacement(pieces: seq<Piece>, vars: map<string, string>, done: set<string>, key: string)
    requires WellFormed(pieces) && PlainKeys(vars) && Separate(vars) && key in vars && key !in done
    ensures Replace(Render(Simultaneous(pieces, Restricted(vars, done))), Placeholder(key), vars[key])
         == Render(Simultaneous(pieces, Restricted(vars, done + {key})))
  {
    var now := Simultaneous(pieces, Restricted(vars, done));
    FillsOneMore(pieces, vars, done, key);
    if vars[key] == Placeholder(key) {
      ReplaceByItself(Render(now), Placeholder(key));
      FillByItself(now, key);
    } else {
      StillExposed(pieces, vars, done, key);
      ReplacesExactlyHoles(now, key, vars[key]);
    }
  }

  lemma {:induction false} PrefixIsSimultaneous(pieces: seq<Piece>, vars: map<string, string>, order: seq<string>)
    requires WellFormed(pieces) && PlainKeys(vars) && Separate(vars)
    requires Distinct(order) && Keys(order) <= vars.Keys
    ensures Sequential(Render(pieces), vars, order) == Render(Simultaneous(pieces, Restricted(vars, Keys(order))))
  {
    if order == [] {
      assert Simultaneous(pieces, Restricted(vars, Keys(order))) == pieces;
    } else {
      var before, key := order[..|order| - 1], order[|order| - 1];
      assert order == before + [key];
      assert Keys(order) == Keys(before) + {key};
      PrefixIsSimultaneous(pieces, vars, before);
      OneReplacement(pieces, vars, Keys(before), key);
    }
  }

  ghost predicate AlwaysSimultaneous(vars: map<string, string>) {
    forall pieces, order | WellFormed(pieces) && IsOrder(order, vars) ::
      Sequential(Render(pieces), vars, order) == Render(Simultaneous(pieces, vars))
  }

  /** In any order, one replacement after another gives what replacing all at once gives. */
  lemma SequentialIsSimultaneous(pieces: seq<Piece>, vars: map<string, string>, order: seq<string>)
    requires WellFormed(pieces) && PlainKeys(vars) && Separate(vars) && IsOrder(order, vars)
    ensures Sequential(Render(pieces), vars, order) == Render(Simultaneous(pieces, vars))
  {
    PrefixIsSimultaneous(pieces, vars, order);
    assert Restricted(vars, Keys(order)) == vars;
  }

  // ---- values that are not separate ----

  function Matches(s: string, pattern: string): nat
    requires pattern != []
  {
    if s == [] then 0 else if HasPrefix(s, pattern) then 1 + Matches(s[|pattern|..], pattern) else Matches(s[1..], pattern)
  }

  lemma OneMore(count: int, growth: int, more: int)
    requires more == count + 1
    ensures more * growth == growth + count * growth
  {
  }

  lemma {:induction false} LengthAfter(s: string, pattern: string, to: string)
    requires pattern != []
    ensures |Replace(s, pattern, to)| == |s| + Matches(s, pattern) * (|to| - |pattern|)
    decreases |s|
  {
    if s != [] {
      if HasPrefix(s, pattern) {
        var tail := s[|pattern|..];
        LengthAfter(tail, pattern, to);
        OneMore(Matches(tail, pattern), |to| - |pattern|, Matches(s, pattern));
      } else {
        LengthAfter(s[1..], pattern, to);
      }
    }
  }

  lemma {:induction false} MatchIsFound(before: string, pattern: string, after: string)
    requires pattern != []
    ensures Matches(before + pattern + after, pattern) > 0
  {
    var s := before + pattern + after;
    if before == [] {
      assert HasPrefix(s, pattern);
    } else if !HasPrefix(s, pattern) {
      MatchIsFound(before[1..], pattern, after);
      assert s[1..] == before[1..] + pattern + after;
    }
  }

  lemma {:induction false} MatchIsOverwritten(before: string, pattern: string, after: string, to: string)
    requires pattern != [] && to != pattern && |to| == |pattern|
    ensures Replace(before + pattern + after, pattern, to) != before + pattern + after
  {
    var s := before + pattern + after;
    var r := Replace(s, pattern, to);
    assert before == [] ==> HasPrefix(s, pattern);
    if HasPrefix(s, pattern) {
      assert r[..|to|] == to && s[..|pattern|] == pattern;
    } else {
      MatchIsOverwritten(before[1..], pattern, after, to);
      assert s[1..] == before[1..] + pattern + after;
      assert r[1..] == Replace(s[1..], pattern, to);
    }
  }

  /** A text with a match in it changes, unless the pattern is replaced by itself. */
  lemma MatchIsChanged(before: string, pattern: string, after: string, to: string)
    requires pattern != [] && to != pattern
    ensures Replace(before + pattern + after, pattern, to) != before + pattern + after
  {
    var s := before + pattern + after;
    if |to| == |pattern| {
      MatchIsOverwritten(before, pattern, after, to);
    } else {
      LengthAfter(s, pattern, to);
      MatchIsFound(before, pattern, after);
      NonZero(Matches(s, pattern), |to| - |pattern|);
    }
  }

  lemma NonZero(a: int, b: int)
    requires a != 0 && b != 0
    ensures a * b != 0
  {
  }

  lemma {:induction false} Listed(keys: set<string>) returns (order: seq<string>)
    ensures Keys(order) == keys && Distinct(order)
  {
    if keys == {} {
      order := [];
    } else {
      var k :| k in keys;
      var rest := Listed(keys - {k});
      assert forall i | 0 <= i < |rest| :: rest[i] in Keys(rest);
      KeysSnoc(rest, k);
      order := rest + [k];
    }
  }

  lemma {:induction false} OthersDoNothing(k: string, rest: string, vars: map<string, string>, others: seq<string>)
    requires PlainKeys(vars) && Plain(k) && '{' !in rest && k !in others && Keys(others) <= vars.Keys
    ensures Sequential(Render([Hole(k), Lit(rest)]), vars, others) == Render([Hole(k), Lit(rest)])
  {
    if others != [] {
      var before, o := others[..|others| - 1], others[|others| - 1];
      assert Keys(before) <= Keys(others) && o in Keys(others);
      OthersDoNothing(k, rest, vars, before);
      NoBraceIsInert(rest, o);
      ReplacesExactlyHoles([Hole(k), Lit(rest)], o, vars[o]);
      assert Filled([Hole(k), Lit(rest)], o, vars[o]) == [Hole(k), Lit(rest)];
    }
  }

  lemma OrderEndingWith(vars: map<string, string>, k: string, k': string) returns (others: seq<string>)
    requires k in vars && k' in vars && k != k'
    ensures IsOrder(others + [k] + [k'], vars) && k !in others && Keys(others) <= vars.Keys
  {
    others := Listed(vars.Keys - {k, k'});
    assert forall j | 0 <= j < |others| :: others[j] in Keys(others);
    KeysSnoc(others, k);
    KeysSnoc(others + [k], k');
  }

  lemma RenderTwo(p: Piece, q: Piece)
    ensures Render([p, q]) == RenderPiece(p) + RenderPiece(q)
  {
    assert [p, q][1..] == [q];
    assert Render([q]) == RenderPiece(q) + Render([]);
  }

  /** The value of `k`, then the text that makes its tail the placeholder of `k'`. */
  lemma LastTwo(vars: map<string, string>, k: string, k': string, rest: string, others: seq<string>)
    requires PlainKeys(vars) && k in vars && k' in vars && k != k' && '{' !in rest
    requires IsOrder(others + [k] + [k'], vars) && k !in others && Keys(others) <= vars.Keys
    ensures Sequential(Render([Hole(k), Lit(rest)]), vars, others + [k] + [k'])
         == Replace(vars[k] + rest, Placeholder(k'), vars[k'])
  {
    var pieces := [Hole(k), Lit(rest)];
    OthersDoNothing(k, rest, vars, others);
    NoBraceIsInert(rest, k);
    ReplacesExactlyHoles(pieces, k, vars[k]);
    assert Filled(pieces, k, vars[k]) == [Lit(vars[k]), Lit(rest)];
    RenderTwo(Lit(vars[k]), Lit(rest));
    var two := others + [k];
    KeysSnoc(others, k);
    hide Replace, Placeholder, Render;
    assert two[..|two| - 1] == others && two[|two| - 1] == k;
    assert (two + [k'])[..|two + [k']| - 1] == two && (two + [k'])[|two|] == k';
  }

  /** Where a value opens another placeholder, some template and order tell the two readings apart. */
  lemma Distinguished(vars: map<string, string>, k: string, k': string, i: nat) returns (pieces: seq<Piece>, order: seq<string>)
    requires PlainKeys(vars) && k in vars && k' in vars && k != k' && vars[k'] != Placeholder(k')
    requires i < |vars[k]| && vars[k][i] == '{' && Comparable(vars[k][i + 1..], k' + "}")
    ensures WellFormed(pieces) && IsOrder(order, vars)
    ensures Sequential(Render(pieces), vars, order) != Render(Simultaneous(pieces, vars))
  {
    var rest, after := Completion(vars[k], k', i);
    pieces := [Hole(k), Lit(rest)];
    var others := OrderEndingWith(vars, k, k');
    order := others + [k] + [k'];
    LastTwo(vars, k, k', rest, others);
    assert Simultaneous(pieces, vars) == [Lit(vars[k]), Lit(rest)];
    RenderTwo(Lit(vars[k]), Lit(rest));
    MatchIsChanged(vars[k][..i], Placeholder(k'), after, vars[k']);
  }

  lemma Completion(v: string, key: string, i: nat) returns (rest: string, after: string)
    requires Plain(key) && i < |v| && v[i] == '{' && Comparable(v[i + 1..], key + "}")
    ensures '{' !in rest && v + rest == v[..i] + Placeholder(key) + after
  {
    var tail, close := v[i + 1..], key + "}";
    assert v == v[..i] + ['{'] + tail;
    if tail <= close {
      rest, after := close[|tail|..], [];
      assert forall c | c in rest :: c in close;
      assert tail + rest == close;
    } else {
      rest, after := [], tail[|close|..];
      assert tail == close + after;
    }
  }

  /** Sequential replacement is simultaneous replacement, for every template and order, exactly when the values are separate. */
  lemma ExactlyWhenSeparate(vars: map<string, string>)
    requires PlainKeys(vars)
    ensures AlwaysSimultaneous(vars) <==> Separate(vars)
  {
    if Separate(vars) {
      forall pieces, order | WellFormed(pieces) && IsOrder(order, vars)
        ensures Sequential(Render(pieces), vars, order) == Render(Simultaneous(pieces, vars))
      {
        SequentialIsSimultaneous(pieces, vars, order);
      }
    } else {
      var k, k' :| k in vars && k' in vars && k != k' && !Inert(vars[k], k') && vars[k'] != Placeholder(k');
      var i :| 0 <= i < |vars[k]| && vars[k][i] == '{' && Comparable(vars[k][i + 1..], k' + "}");
      var pieces, order := Distinguished(vars, k, k', i);
    }
  }

  // ---- notifications ----

  datatype Template = Template(title: string, body: string, imageUrl: Option<string>)

  /** The variables of a notification: the actor's full name, and the broadcast title under two keys. */
  function BuildVars(actor: Option<string>, broadcastTitle: Option<string>): map<string, string> {
    (if actor.Some? then map["actor" := actor.value] else map[])
    + (if broadcastTitle.Some? then map["title" := broadcastTitle.value, "broadcast" := broadcastTitle.value] else map[])
  }

  lemma NothingVisited(template: string, vars: map<string, string>)
    ensures Keys([]) == {} && Distinct([]) && Sequential(template, vars, []) == template
  {
  }

  lemma Visit(template: string, vars: map<string, string>, order: seq<string>, key: string)
    requires Distinct(order) && Keys(order) <= vars.Keys && key in vars && key !in Keys(order)
    ensures Distinct(order + [key]) && Keys(order + [key]) == Keys(order) + {key}
    ensures Sequential(template, vars, order + [key]) == Replace(Sequential(template, vars, order), Placeholder(key), vars[key])
  {
  }

  lemma AllVisited(order: seq<string>, vars: map<string, string>)
    requires Distinct(order) && Keys(order) == vars.Keys
    ensures IsOrder(order, vars)
  {
  }

  /** One pass over the variables in whatever order the map yields them. */
  method Interpolate(template: string, vars: map<string, string>) returns (result: string, ghost order: seq<string>)
    ensures IsOrder(order, vars) && result == Sequential(template, vars, order)
    ensures forall pieces | Render(pieces) == template && WellFormed(pieces) && PlainKeys(vars) && Separate(vars) ::
              result == Render(Simultaneous(pieces, vars))
  {
    hide *;
    NothingVisited(template, vars);
    result, order := template, [];
    var left := vars.Keys;
    while left != {}
      invariant left <= vars.Keys && Keys(order) == vars.Keys - left
      invariant Distinct(order)
      invariant result == Sequential(template, vars, order)
      decreases |left|
    {
      var key :| key in left;
      result := Replace(result, Placeholder(key), vars[key]);
      Visit(template, vars, order, key);
      order := order + [key];
      left := left - {key};
    }
    AllVisited(order, vars);
    forall pieces | Render(pieces) == template && WellFormed(pieces) && PlainKeys(vars) && Separate(vars)
      ensures result == Render(Simultaneous(pieces, vars))
    {
      SequentialIsSimultaneous(pieces, vars, order);
    }
  }

  method ResolveTemplate(template: Template, vars: map<string, string>)
    returns (title: string, body: string, imageUrl: Option<string>)
    ensures imageUrl.Some? <==> template.imageUrl.Some?
    ensures forall pieces | Render(pieces) == template.title && WellFormed(pieces) && PlainKeys(vars) && Separate(vars) ::
              title == Render(Simultaneous(pieces, vars))
    ensures forall pieces | Render(pieces) == template.body && WellFormed(pieces) && PlainKeys(vars) && Separate(vars) ::
              body == Render(Simultaneous(pieces, vars))
    ensures imageUrl.Some? ==>
              forall pieces | Render(pieces) == template.imageUrl.value && WellFormed(pieces) && PlainKeys(vars) && Separate(vars) ::
                imageUrl.value == Render(Simultaneous(pieces, vars))
  {
    ghost var order;
    title, order := Interpolate(template.title, vars);
    body, order := Interpolate(template.body, vars);
    imageUrl := None;
    if template.imageUrl.Some? {
      var url;
      url, order := Interpolate(template.imageUrl.value, vars);
      imageUrl := Some(url);
    }
  }

  /** Names and titles without an opening brace are always safe. */
  lemma BraceFreeNamesAreSafe(actor: Option<string>, broadcastTitle: Option<string>)
    requires (actor.Some? ==> '{' !in actor.value) && (broadcastTitle.Some? ==> '{' !in broadcastTitle.value)
    ensures PlainKeys(BuildVars(actor, broadcastTitle)) && Separate(BuildVars(actor, broadcastTitle))
    ensures AlwaysSimultaneous(BuildVars(actor, broadcastTitle))
  {
    var vars := BuildVars(actor, broadcastTitle);
    forall k, k' | k in vars && k' in vars && k != k'
      ensures Inert(vars[k], k')
    {
      NoBraceIsInert(vars[k], k');
    }
    ExactlyWhenSeparate(vars);
  }

  /** An actor called `{title}` is not: some template shows the broadcast title in place of the name. */
  lemma NameCanBeReplaced(broadcastTitle: string)
    requires broadcastTitle != "{title}"
    ensures !AlwaysSimultaneous(BuildVars(Some("{title}"), Some(broadcastTitle)))
  {
    var vars := BuildVars(Some("{title}"), Some(broadcastTitle));
    assert Placeholder("title") == "{title}";
    assert "actor" != "title" by { assert "actor"[0] != "title"[0]; }
    assert "broadcast" != "title" by { assert "broadcast"[0] != "title"[0]; }
    assert "{title}"[1..] == "title" + "}";
    assert vars["actor"][0] == '{' && Comparable(vars["actor"][1..], "title" + "}");
    ExactlyWhenSeparate(vars);
  }

  lemma VarsByName(actor: string, broadcastTitle: string)
    ensures BuildVars(Some(actor), Some(broadcastTitle)) == map["actor" := actor, "title" := broadcastTitle, "broadcast" := broadcastTitle]
    ensures BuildVars(Some(actor), None) == map["actor" := actor]
    ensures BuildVars(None, Some(broadcastTitle)) == map["title" := broadcastTitle, "broadcast" := broadcastTitle]
    ensures BuildVars(None, None) == map[]
  {
  }

  lemma RenderThree(a: Piece, b: Piece, c: Piece)
    ensures Render([a, b, c]) == RenderPiece(a) + RenderPiece(b) + RenderPiece(c)
  {
    hide RenderPiece;
    assert [a, b, c][1..] == [b, c];
    RenderTwo(b, c);
  }

  lemma ThreeWellFormed(pre: string, k: string, post: string)
    requires '{' !in pre && '{' !in post && Plain(k)
    ensures WellFormed([Lit(pre), Hole(k), Lit(post)])
  {
  }

  /** A known placeholder in a text is replaced by its value, the text around it stays; an unknown one stays as it is. */
  lemma PlaceholderBecomesValue(vars: map<string, string>, k: string, pre: string, post: string, order: seq<string>)
    requires PlainKeys(vars) && Separate(vars) && IsOrder(order, vars) && Plain(k)
    requires '{' !in pre && '{' !in post
    ensures Sequential(pre + ("{" + k + "}") + post, vars, order) == pre + (if k in vars then vars[k] else "{" + k + "}") + post
  {
    var pieces := [Lit(pre), Hole(k), Lit(post)];
    var value := if k in vars then Lit(vars[k]) else Hole(k);
    ThreeWellFormed(pre, k, post);
    RenderThree(Lit(pre), Hole(k), Lit(post));
    RenderThree(Lit(pre), value, Lit(post));
    hide Sequential, Render, WellFormed, PlainKeys, Separate, IsOrder, Plain;
    SequentialIsSimultaneous(pieces, vars, order);
    assert Simultaneous(pieces, vars) == [Lit(pre), value, Lit(post)];
  }

  /** The actor's name stands where the text says `{actor}`, the broadcast's title where it says `{title}` or `{broadcast}`. */
  lemma ActorAndTitleAreShown(actor: string, broadcastTitle: string, pre: string, post: string, order: seq<string>)
    requires '{' !in actor && '{' !in broadcastTitle && '{' !in pre && '{' !in post
    requires IsOrder(order, BuildVars(Some(actor), Some(broadcastTitle)))
    ensures var vars := BuildVars(Some(actor), Some(broadcastTitle));
            && Sequential(pre + ("{" + "actor" + "}") + post, vars, order) == pre + actor + post
            && Sequential(pre + ("{" + "title" + "}") + post, vars, order) == pre + broadcastTitle + post
            && Sequential(pre + ("{" + "broadcast" + "}") + post, vars, order) == pre + broadcastTitle + post
  {
    var vars := BuildVars(Some(actor), Some(broadcastTitle));
    VarsByName(actor, broadcastTitle);
    KeysDiffer();
    BraceFreeNamesAreSafe(Some(actor), Some(broadcastTitle));
    hide Sequential, Render, PlainKeys, Separate, BuildVars, IsOrder, AlwaysSimultaneous;
    PlaceholderBecomesValue(vars, "actor", pre, post, order);
    PlaceholderBecomesValue(vars, "title", pre, post, order);
    PlaceholderBecomesValue(vars, "broadcast", pre, post, order);
  }

  lemma KeysDiffer()
    ensures "actor" != "title" && "actor" != "broadcast" && "title" != "broadcast"
  {
    assert "actor"[0] != "title"[0] && "actor"[0] != "broadcast"[0] && "title"[0] != "broadcast"[0];
  }
}
