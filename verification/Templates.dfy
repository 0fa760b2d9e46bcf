/**
 Placeholder substitution.  The source replaces one `${NAME}` after the other, in the random order
 of a Go map; here is when that order cannot be observed.
 */
module Templates {

  ghost predicate OccursAt(s: string, p: string, i: int) {
    0 <= i <= |s| - |p| && s[i..i + |p|] == p
  }

  ghost predicate Contains(s: string, p: string) { exists i :: OccursAt(s, p, i) }

  /** `strings.ReplaceAll` for a non-empty pattern: leftmost matches, not rescanned. */
  function ReplaceAll(s: string, p: string, v: string): string
    requires p != []
  {
    if |s| < |p| then s
    else if s[..|p|] == p then v + ReplaceAll(s[|p|..], p, v)
    else [s[0]] + ReplaceAll(s[1..], p, v)
  }

  // ---------- templates ----------

  datatype Segment = Text(text: string) | Hole(name: string)

  predicate NameChar(c: char) { 'A' <= c <= 'Z' || c == '_' }

  predicate PatternChar(c: char) { NameChar(c) || c == '$' || c == '{' || c == '}' }

  predicate IsName(n: string) { forall c :: c in n ==> NameChar(c) }

  function Pattern(n: string): string { "${" + n + "}" }

  /** Nothing, or something no placeholder could run into. */
  predicate Guarded(s: string) { s != [] ==> !PatternChar(s[0]) }

  /** Literal text holds no `$`, and each hole is followed by text that cannot complete a placeholder. */
  predicate WellFormed(t: seq<Segment>) { forall k :: 0 <= k < |t| ==> SegmentFits(t, k) }

  predicate SegmentFits(t: seq<Segment>, k: nat)
    requires k < |t|
  {
    match t[k]
    case Text(x) => '$' !in x
    case Hole(n) => IsName(n) && (k + 1 < |t| ==> t[k + 1].Text? && t[k + 1].text != [] && Guarded(t[k + 1].text))
  }

  lemma TailFits(t: seq<Segment>)
    requires WellFormed(t) && t != []
    ensures WellFormed(t[1..]) && SegmentFits(t, 0)
  {
    forall k | 0 <= k < |t| - 1 ensures SegmentFits(t[1..], k) { assert SegmentFits(t, k + 1); }
  }

  function Fill(s: Segment, values: map<string, string>): string {
    match s
    case Text(x) => x
    case Hole(n) => if n in values then values[n] else Pattern(n)
  }

  /** Simultaneous substitution; a hole without a value shows its placeholder. */
  function Render(t: seq<Segment>, values: map<string, string>): string {
    if t == [] then [] else Fill(t[0], values) + Render(t[1..], values)
  }

  lemma {:induction false} RenderConcat(t: seq<Segment>, u: seq<Segment>, values: map<string, string>)
    ensures Render(t + u, values) == Render(t, values) + Render(u, values)
  {
    if t == [] {
      assert t + u == u;
    } else {
      assert (t + u)[1..] == t[1..] + u;
      RenderConcat(t[1..], u, values);
    }
  }

  // ---------- one replacement ----------

  ghost predicate NoStraddle(a: string, b: string, p: string) {
    forall i :: 0 <= i < |a| < i + |p| ==> !OccursAt(a + b, p, i)
  }

  lemma {:induction false} ReplaceSplit(a: string, b: string, p: string, v: string)
    requires p != [] && NoStraddle(a, b, p)
    ensures ReplaceAll(a + b, p, v) == ReplaceAll(a, p, v) + ReplaceAll(b, p, v)
    decreases |a|
  {
    if a == [] {
      assert a + b == b;
    } else {
      var hit := |p| <= |a| && a[..|p|] == p;
      var n := if hit then |p| else 1;
      HeadMatches(a, b, p);
      assert (a + b)[n..] == a[n..] + b && (a + b)[0] == a[0];
      TailNoStraddle(a, b, p, n);
      ReplaceSplit(a[n..], b, p, v);
    }
  }

  lemma HeadMatches(a: string, b: string, p: string)
    requires p != [] && a != [] && NoStraddle(a, b, p)
    ensures (|p| <= |a + b| && (a + b)[..|p|] == p) <==> (|p| <= |a| && a[..|p|] == p)
  {
    if |p| <= |a| {
      assert (a + b)[..|p|] == a[..|p|];
    } else {
      assert !OccursAt(a + b, p, 0);
    }
  }

  lemma TailNoStraddle(a: string, b: string, p: string, n: nat)
    requires n <= |a| && NoStraddle(a, b, p)
    ensures NoStraddle(a[n..], b, p)
  {
    forall i | 0 <= i < |a[n..]| < i + |p| ensures !OccursAt(a[n..] + b, p, i) {
      assert !OccursAt(a + b, p, i + n);
      if i + |p| <= |a[n..] + b| { assert (a[n..] + b)[i..i + |p|] == (a + b)[i + n..i + n + |p|]; }
    }
  }

  lemma {:induction false} ReplaceAbsent(s: string, p: string, v: string)
    requires p != [] && !Contains(s, p)
    ensures ReplaceAll(s, p, v) == s
  {
    if |s| >= |p| {
      assert !OccursAt(s, p, 0);
      forall i ensures !OccursAt(s[1..], p, i) {
        assert !OccursAt(s, p, i + 1);
        if 0 <= i <= |s[1..]| - |p| { assert s[1..][i..i + |p|] == s[i + 1..i + 1 + |p|]; }
      }
      ReplaceAbsent(s[1..], p, v);
    }
  }

  lemma OccurrenceChar(s: string, p: string, i: int, j: nat)
    requires OccursAt(s, p, i) && j < |p|
    ensures s[i + j] == p[j]
  {
    assert s[i..i + |p|][j] == s[i + j];
  }

  lemma OccurrenceChars(s: string, p: string)
    ensures forall i, j :: OccursAt(s, p, i) && 0 <= j < |p| ==> s[i + j] == p[j]
  {
    forall i, j | OccursAt(s, p, i) && 0 <= j < |p| ensures s[i + j] == p[j] { OccurrenceChar(s, p, i, j); }
  }

  lemma NoDollarNoPattern(s: string, n: string)
    requires '$' !in s
    ensures !Contains(s, Pattern(n))
  {
    var p := Pattern(n);
    assert forall i :: OccursAt(s, p, i) ==> s[i..i + |p|][0] == s[i];
  }

  lemma GuardStopsStraddling(a: string, b: string, n: string)
    requires IsName(n) && (Guarded(b) || '$' !in a)
    ensures NoStraddle(a, b, Pattern(n))
  {
    var p := Pattern(n);
    assert forall j :: 0 <= j < |p| ==> PatternChar(p[j]);
    OccurrenceChars(a + b, p);
    assert forall i :: 0 <= i < |a| < i + |p| && OccursAt(a + b, p, i) ==> p[|a| - i] == (a + b)[i + (|a| - i)] == b[0];
    assert forall i :: 0 <= i < |a| < i + |p| && OccursAt(a + b, p, i) ==> p[0] == (a + b)[i + 0] == a[i];
  }

  lemma OccurrenceIsWhole(m: string, n: string, i: nat)
    requires IsName(m) && IsName(n) && OccursAt(Pattern(m), Pattern(n), i)
    ensures m == n
  {
    var p, q := Pattern(m), Pattern(n);
    OccurrenceChar(p, q, i, 0);
    OccurrenceChar(p, q, i, |q| - 1);
    assert forall j :: 2 <= j < |p| - 1 ==> p[j] == m[j - 2] && p[j] in m;
    assert i == 0;
    assert |q| == |p|;
    assert p == q;
    assert m == p[2..|p| - 1] && n == q[2..|q| - 1];
  }

  /** One placeholder does not occur in another. */
  lemma PatternsAreApart(m: string, n: string)
    requires IsName(m) && IsName(n) && m != n
    ensures !Contains(Pattern(m), Pattern(n))
  {
    if i: nat :| OccursAt(Pattern(m), Pattern(n), i) { OccurrenceIsWhole(m, n, i); }
  }

  lemma TailIsGuarded(t: seq<Segment>, values: map<string, string>)
    requires WellFormed(t) && t != [] && t[0].Hole?
    ensures Guarded(Render(t[1..], values))
  {
    TailFits(t);
  }

  /** What replacing `n` does to one segment. */
  lemma ReplaceInSegment(s: Segment, values: map<string, string>, n: string, v: string)
    requires IsName(n) && n !in values && (s.Hole? ==> IsName(s.name))
    requires s.Text? ==> '$' !in s.text
    requires s.Hole? && s.name in values ==> !Contains(values[s.name], Pattern(n))
    ensures ReplaceAll(Fill(s, values), Pattern(n), v) == Fill(s, values[n := v])
  {
    var p, x := Pattern(n), Fill(s, values);
    if s == Hole(n) {
      assert x[..|p|] == p && x[|p|..] == [];
    } else {
      if s.Text? {
        NoDollarNoPattern(x, n);
      } else if s.name !in values {
        PatternsAreApart(s.name, n);
      }
      ReplaceAbsent(x, p, v);
    }
  }

  /** Replacing one placeholder in a partly filled template fills exactly its holes. */
  lemma {:induction false} ReplaceFillsHole(t: seq<Segment>, values: map<string, string>, n: string, v: string)
    requires WellFormed(t) && IsName(n) && n !in values
    requires forall k :: k in values ==> !Contains(values[k], Pattern(n))
    ensures ReplaceAll(Render(t, values), Pattern(n), v) == Render(t, values[n := v])
  {
    if t != [] {
      TailFits(t);
      ReplaceFillsHole(t[1..], values, n, v);
      var a, b := Fill(t[0], values), Render(t[1..], values);
      if t[0].Hole? { TailIsGuarded(t, values); }
      GuardStopsStraddling(a, b, n);
      ReplaceSplit(a, b, Pattern(n), v);
      ReplaceInSegment(t[0], values, n, v);
    }
  }

  // ---------- all replacements, in any order ----------

  /** No value mentions the placeholder of another, unless that other stands for itself. */
  ghost predicate Inert(values: map<string, string>) {
    forall j, k :: j in values && k in values && j != k && Contains(values[j], Pattern(k)) ==> values[k] == Pattern(k)
  }

  lemma {:induction false} ReplaceByItself(s: string, p: string)
    requires p != []
    ensures ReplaceAll(s, p, p) == s
  {
    if |s| >= |p| {
      var n := if s[..|p|] == p then |p| else 1;
      ReplaceByItself(s[n..], p);
      assert s == s[..n] + s[n..];
    }
  }

  lemma {:induction false} FillByItself(t: seq<Segment>, values: map<string, string>, n: string)
    requires n !in values
    ensures Render(t, values[n := Pattern(n)]) == Render(t, values)
  {
    if t != [] { FillByItself(t[1..], values, n); }
  }

  /** Replacing the next placeholder, with the values of an inert map. */
  lemma ReplaceNext(t: seq<Segment>, values: map<string, string>, filled: map<string, string>, n: string)
    requires WellFormed(t) && IsName(n) && Inert(values) && n in values && n !in filled
    requires forall k :: k in filled ==> k in values && filled[k] == values[k]
    ensures ReplaceAll(Render(t, filled), Pattern(n), values[n]) == Render(t, filled[n := values[n]])
  {
    if values[n] == Pattern(n) {
      ReplaceByItself(Render(t, filled), Pattern(n));
      FillByItself(t, filled, n);
    } else {
      ReplaceFillsHole(t, filled, n, values[n]);
    }
  }

  /** The loop over the Go map: if the values are inert, every choice made by `:|` ends in the same text. */
  method Substitute(text: string, values: map<string, string>, ghost t: seq<Segment>) returns (r: string)
    requires WellFormed(t) && text == Render(t, map[])
    requires forall k :: k in values ==> IsName(k)
    ensures Inert(values) ==> r == Render(t, values)
  {
    r := text;
    var rest := values.Keys;
    ghost var filled: map<string, string> := map[];
    while rest != {}
      invariant rest <= values.Keys
      invariant filled == map k | k in values.Keys - rest :: values[k]
      invariant Inert(values) ==> r == Render(t, filled)
      decreases rest
    {
      var k :| k in rest;
      if Inert(values) { ReplaceNext(t, values, filled, k); }
      r := ReplaceAll(r, Pattern(k), values[k]);
      filled := filled[k := values[k]];
      rest := rest - {k};
    }
    assert filled == values;
  }

  // ---------- exactly when the order cannot be observed ----------

  /** The loop with its iteration order made explicit. */
  function ReplaceInOrder(text: string, values: map<string, string>, order: seq<string>): string
    requires forall k :: k in order ==> k in values
  {
    if order == [] then text
    else
      assert forall k :: k in order[..|order| - 1] ==> k in values;
      ReplaceAll(ReplaceInOrder(text, values, order[..|order| - 1]), Pattern(order[|order| - 1]),
                 values[order[|order| - 1]])
  }

  ghost predicate IsOrder(order: seq<string>, values: map<string, string>) {
    && (forall k :: k in order <==> k in values)
    && forall i, j :: 0 <= i < j < |order| ==> order[i] != order[j]
  }

  /** Every order of replacement agrees with simultaneous substitution, in every well-formed template. */
  ghost predicate OrderInvisible(values: map<string, string>) {
    forall t: seq<Segment>, order :: WellFormed(t) && IsOrder(order, values) ==>
      ReplaceInOrder(Render(t, map[]), values, order) == Render(t, values)
  }

  function Restricted(values: map<string, string>, keys: seq<string>): map<string, string> {
    map k | k in keys && k in values :: values[k]
  }

  lemma RestrictedGrows(values: map<string, string>, front: seq<string>, n: string)
    requires n in values
    ensures Restricted(values, front + [n]) == Restricted(values, front)[n := values[n]]
  {}

  lemma {:induction false} InertOrder(t: seq<Segment>, values: map<string, string>, order: seq<string>)
    requires WellFormed(t) && Inert(Restricted(values, order)) && (forall k :: k in values ==> IsName(k))
    requires (forall k :: k in order ==> k in values) && forall i, j :: 0 <= i < j < |order| ==> order[i] != order[j]
    ensures ReplaceInOrder(Render(t, map[]), values, order) == Render(t, Restricted(values, order))
  {
    if order == [] {
      assert Restricted(values, order) == map[];
    } else {
      var front, n := order[..|order| - 1], order[|order| - 1];
      assert order == front + [n] && n !in front;
      var filled := Restricted(values, front);
      RestrictedGrows(values, front, n);
      assert n !in filled && forall k :: k in filled ==> Restricted(values, order)[k] == filled[k];
      InertOrder(t, values, front);
      ReplaceNext(t, Restricted(values, order), filled, n);
    }
  }

  lemma {:induction false} ReplaceGrows(s: string, p: string, v: string)
    requires p != []
    ensures |v| >= |p| ==> |ReplaceAll(s, p, v)| >= |s|
    ensures |v| <= |p| ==> |ReplaceAll(s, p, v)| <= |s|
  {
    if |s| >= |p| { ReplaceGrows(s[if s[..|p|] == p then |p| else 1..], p, v); }
  }

  /** Replacing a pattern that occurs, by anything else, changes the text: no two changes cancel out. */
  lemma {:induction false} ReplaceChanges(s: string, p: string, v: string)
    requires p != [] && v != p && Contains(s, p)
    ensures ReplaceAll(s, p, v) != s
  {
    if s[..|p|] == p {
      ReplaceGrows(s[|p|..], p, v);
      if |v| == |p| { assert ReplaceAll(s, p, v)[..|p|] == v; }
    } else {
      var i :| OccursAt(s, p, i);
      assert s[1..][i - 1..i - 1 + |p|] == s[i..i + |p|];
      assert OccursAt(s[1..], p, i - 1);
      ReplaceChanges(s[1..], p, v);
      assert ReplaceAll(s, p, v)[1..] == ReplaceAll(s[1..], p, v);
    }
  }

  /** Replacing other placeholders leaves a lone one alone. */
  lemma {:induction false} OthersDoNothing(n: string, values: map<string, string>, order: seq<string>)
    requires IsName(n) && forall k :: k in order ==> k in values && IsName(k) && k != n
    ensures ReplaceInOrder(Pattern(n), values, order) == Pattern(n)
  {
    if order != [] {
      var m := order[|order| - 1];
      OthersDoNothing(n, values, order[..|order| - 1]);
      PatternsAreApart(n, m);
      ReplaceAbsent(Pattern(n), Pattern(m), values[m]);
    }
  }

  /** An order of some keys. */
  lemma {:induction false} SomeOrder(keys: set<string>) returns (order: seq<string>)
    ensures (forall k :: k in order <==> k in keys) && forall i, j :: 0 <= i < j < |order| ==> order[i] != order[j]
  {
    order := [];
    if keys != {} {
      var k :| k in keys;
      order := SomeOrder(keys - {k});
      order := order + [k];
    }
  }

  lemma ReplaceWhole(n: string, v: string)
    ensures ReplaceAll(Pattern(n), Pattern(n), v) == v
  {
    var p := Pattern(n);
    assert p[..|p|] == p && p[|p|..] == [];
  }

  lemma LoneHole(j: string, values: map<string, string>)
    requires IsName(j)
    ensures WellFormed([Hole(j)])
    ensures Render([Hole(j)], values) == if j in values then values[j] else Pattern(j)
  {
    var t := [Hole(j)];
    assert t[1..] == [] && Render([], values) == "";
    assert Render(t, values) == Fill(Hole(j), values) + "";
  }

  /** A value that mentions another placeholder shows the order: in `${j}`, replace `k` last and `j` just before. */
  lemma VisibleOrder(values: map<string, string>, j: string, k: string)
    requires forall n :: n in values ==> IsName(n)
    requires j in values && k in values && j != k && Contains(values[j], Pattern(k)) && values[k] != Pattern(k)
    ensures !OrderInvisible(values)
  {
    var rest := SomeOrder(values.Keys - {j, k});
    var order := rest + [j, k];
    assert IsOrder(order, values);
    LoneHole(j, map[]);
    LoneHole(j, values);
    LastTwo(values, rest, j, k);
    ReplaceChanges(values[j], Pattern(k), values[k]);
    assert ReplaceInOrder(Render([Hole(j)], map[]), values, order) != Render([Hole(j)], values);
  }

  lemma LastTwo(values: map<string, string>, rest: seq<string>, j: string, k: string)
    requires j in values && k in values && IsName(j)
    requires forall n :: n in rest ==> n in values && IsName(n) && n != j
    ensures ReplaceInOrder(Pattern(j), values, rest + [j, k]) == ReplaceAll(values[j], Pattern(k), values[k])
  {
    OthersDoNothing(j, values, rest);
    var order := rest + [j, k];
    var upToJ := order[..|order| - 1];
    assert upToJ[..|upToJ| - 1] == rest && upToJ[|upToJ| - 1] == j;
    ReplaceWhole(j, values[j]);
    assert ReplaceInOrder(Pattern(j), values, upToJ) == values[j];
  }

  /** The order of replacement cannot be observed exactly when the values are inert. */
  lemma OrderInvisibleExactlyWhen(values: map<string, string>)
    requires forall n :: n in values ==> IsName(n)
    ensures OrderInvisible(values) <==> Inert(values)
  {
    if Inert(values) {
      forall t: seq<Segment>, order | WellFormed(t) && IsOrder(order, values)
        ensures ReplaceInOrder(Render(t, map[]), values, order) == Render(t, values)
      {
        assert Restricted(values, order) == values;
        InertOrder(t, values, order);
      }
    } else {
      var j, k :| j in values && k in values && j != k && Contains(values[j], Pattern(k)) && values[k] != Pattern(k);
      VisibleOrder(values, j, k);
    }
  }

  // ---------- what a visible order does to one template ----------

  /** The values after replacing `n` in each of them. */
  function Rewritten(values: map<string, string>, n: string, v: string): map<string, string> {
    map k | k in values :: ReplaceAll(values[k], Pattern(n), v)
  }

  lemma RewriteSegment(s: Segment, values: map<string, string>, n: string, v: string)
    requires IsName(n) && n !in values && (s.Hole? ==> IsName(s.name)) && (s.Text? ==> '$' !in s.text)
    ensures ReplaceAll(Fill(s, values), Pattern(n), v) == Fill(s, Rewritten(values, n, v)[n := v])
  {
    if s == Hole(n) {
      ReplaceWhole(n, v);
    } else if s.Text? {
      NoDollarNoPattern(s.text, n);
      ReplaceAbsent(s.text, Pattern(n), v);
    } else if s.name !in values {
      PatternsAreApart(s.name, n);
      ReplaceAbsent(Pattern(s.name), Pattern(n), v);
    }
  }

  /** Replacing one placeholder fills its holes and rewrites the values already filled in, and nothing else. */
  lemma {:induction false} ReplaceRewrites(t: seq<Segment>, values: map<string, string>, n: string, v: string)
    requires WellFormed(t) && IsName(n) && n !in values
    ensures ReplaceAll(Render(t, values), Pattern(n), v) == Render(t, Rewritten(values, n, v)[n := v])
  {
    if t != [] {
      TailFits(t);
      ReplaceRewrites(t[1..], values, n, v);
      var a, b := Fill(t[0], values), Render(t[1..], values);
      if t[0].Hole? { TailIsGuarded(t, values); }
      GuardStopsStraddling(a, b, n);
      ReplaceSplit(a, b, Pattern(n), v);
      RewriteSegment(t[0], values, n, v);
    }
  }

  /** Only the value of `j` mentions placeholders of other names. */
  ghost predicate OnlyCulprit(values: map<string, string>, j: string) {
    forall k, n :: k in values && n in values && k != j && k != n ==> !Contains(values[k], Pattern(n))
  }

  lemma OneMore(text: string, values: map<string, string>, front: seq<string>, n: string)
    requires n in values && forall k :: k in front ==> k in values
    ensures ReplaceInOrder(text, values, front + [n])
            == ReplaceAll(ReplaceInOrder(text, values, front), Pattern(n), values[n])
  {
    assert (front + [n])[..|front|] == front;
  }

  /** Without the culprit, any order fills its holes and mentions no placeholder that is still open. */
  lemma OthersFill(t: seq<Segment>, values: map<string, string>, front: seq<string>, j: string)
    requires WellFormed(t) && (forall n :: n in values ==> IsName(n)) && OnlyCulprit(values, j)
    requires j !in front && (forall n :: n in front ==> n in values)
    requires forall a, b :: 0 <= a < b < |front| ==> front[a] != front[b]
    ensures ReplaceInOrder(Render(t, map[]), values, front) == Render(t, Restricted(values, front))
  {
    var filled := Restricted(values, front);
    forall k, n | k in filled && n in filled && k != n ensures !Contains(filled[k], Pattern(n)) {
      assert k in values && n in values && k != j;
    }
    InertOrder(t, values, front);
  }

  lemma FillCulprit(t: seq<Segment>, values: map<string, string>, front: seq<string>, j: string)
    requires WellFormed(t) && (forall n :: n in values ==> IsName(n)) && OnlyCulprit(values, j) && j in values
    requires j !in front && (forall n :: n in front ==> n in values)
    requires forall a, b :: 0 <= a < b < |front| ==> front[a] != front[b]
    ensures ReplaceInOrder(Render(t, map[]), values, front + [j])
            == Render(t, Restricted(values, front)[j := values[j]])
  {
    OthersFill(t, values, front, j);
    OneMore(Render(t, map[]), values, front, j);
    var filled := Restricted(values, front);
    forall k | k in filled ensures !Contains(filled[k], Pattern(j)) { assert k in values && k != j; }
    ReplaceFillsHole(t, filled, j, values[j]);
  }

  lemma CulpritLast(t: seq<Segment>, values: map<string, string>, front: seq<string>, j: string)
    requires WellFormed(t) && (forall n :: n in values ==> IsName(n)) && OnlyCulprit(values, j)
             && j in values && j !in front
    requires forall n :: n in values <==> n in front || n == j
    requires forall a, b :: 0 <= a < b < |front| ==> front[a] != front[b]
    ensures ReplaceInOrder(Render(t, map[]), values, front + [j]) == Render(t, values)
  {
    FillCulprit(t, values, front, j);
    assert Restricted(values, front)[j := values[j]] == values;
  }

  lemma CulpritBefore(t: seq<Segment>, values: map<string, string>, rest: seq<string>, j: string, k: string)
    requires WellFormed(t) && (forall n :: n in values ==> IsName(n)) && OnlyCulprit(values, j)
    requires j != k && j in values && k in values && j !in rest && k !in rest
    requires forall n :: n in values <==> n in rest || n == j || n == k
    requires forall a, b :: 0 <= a < b < |rest| ==> rest[a] != rest[b]
    ensures ReplaceInOrder(Render(t, map[]), values, (rest + [j]) + [k])
            == Render(t, values[j := ReplaceAll(values[j], Pattern(k), values[k])])
  {
    FillCulprit(t, values, rest, j);
    OneMore(Render(t, map[]), values, rest + [j], k);
    var filled := Restricted(values, rest)[j := values[j]];
    ReplaceRewrites(t, filled, k, values[k]);
    OnlyCulpritRewritten(values, filled, j, k);
  }

  lemma OnlyCulpritRewritten(values: map<string, string>, filled: map<string, string>, j: string, k: string)
    requires OnlyCulprit(values, j) && j != k && j in values && k in values
    requires filled.Keys == values.Keys - {k} && forall n :: n in filled ==> filled[n] == values[n]
    ensures Rewritten(filled, k, values[k])[k := values[k]] == values[j := ReplaceAll(values[j], Pattern(k), values[k])]
  {
    forall n | n in filled && n != j ensures ReplaceAll(filled[n], Pattern(k), values[k]) == values[n] {
      ReplaceAbsent(filled[n], Pattern(k), values[k]);
    }
  }

  lemma {:induction false} RenderAgrees(t: seq<Segment>, f: map<string, string>, g: map<string, string>)
    requires forall s :: s in t ==> Fill(s, f) == Fill(s, g)
    ensures Render(t, f) == Render(t, g)
  {
    if t != [] { RenderAgrees(t[1..], f, g); }
  }

  /** A hole that occurs once in a template shows its value. */
  lemma LoneHoleShows(t: seq<Segment>, values: map<string, string>, j: string, i: nat, v: string)
    requires i < |t| && t[i] == Hole(j) && (forall k :: 0 <= k < |t| && k != i ==> t[k] != Hole(j))
    requires j in values && v != values[j]
    ensures Render(t, values[j := v]) != Render(t, values)
  {
    var g := values[j := v];
    var front, back := t[..i], t[i + 1..];
    assert t == front + ([Hole(j)] + back);
    RenderAgrees(front, values, g);
    RenderAgrees(back, values, g);
    forall f: map<string, string> | j in f
      ensures Render(t, f) == Render(front, f) + (f[j] + Render(back, f))
    {
      RenderConcat(front, [Hole(j)] + back, f);
      assert ([Hole(j)] + back)[1..] == back;
    }
    if Render(t, g) == Render(t, values) {
      Cancel(Render(front, values), values[j], v, Render(back, values));
    }
  }

  lemma Cancel(a: string, x: string, y: string, b: string)
    requires a + (x + b) == a + (y + b)
    ensures x == y
  {
    assert |x| == |y|;
    assert (a + (x + b))[|a|..|a| + |x|] == x;
    assert (a + (y + b))[|a|..|a| + |y|] == y;
  }

  lemma PairLast(values: map<string, string>, rest: seq<string>, a: string, b: string)
    requires a != b && a !in rest && b !in rest
    requires forall n :: n in values <==> n in rest || n == a || n == b
    requires forall x, y :: 0 <= x < y < |rest| ==> rest[x] != rest[y]
    ensures IsOrder((rest + [a]) + [b], values)
    ensures forall x, y :: 0 <= x < y < |rest + [a]| ==> (rest + [a])[x] != (rest + [a])[y]
    ensures b !in rest + [a] && forall n :: n in values <==> n in rest + [a] || n == b
  {}

  /**
   In a template where `j` occurs once: if its value, and no other, mentions other placeholders, one of them
   `k`, then replacing `j` last is simultaneous substitution, and replacing `k` after `j` is something else.
   */
  lemma OrderShows(t: seq<Segment>, values: map<string, string>, j: string, i: nat, k: string)
    returns (right: seq<string>, wrong: seq<string>)
    requires WellFormed(t) && (forall n :: n in values ==> IsName(n))
    requires i < |t| && t[i] == Hole(j) && (forall l :: 0 <= l < |t| && l != i ==> t[l] != Hole(j))
    requires j in values && k in values && j != k && OnlyCulprit(values, j)
    requires Contains(values[j], Pattern(k)) && values[k] != Pattern(k)
    ensures IsOrder(right, values) && IsOrder(wrong, values)
    ensures ReplaceInOrder(Render(t, map[]), values, right) == Render(t, values)
    ensures ReplaceInOrder(Render(t, map[]), values, wrong) != Render(t, values)
  {
    var rest := SomeOrder(values.Keys - {j, k});
    right, wrong := (rest + [k]) + [j], (rest + [j]) + [k];
    PairLast(values, rest, k, j);
    PairLast(values, rest, j, k);
    CulpritLast(t, values, rest + [k], j);
    CulpritBefore(t, values, rest, j, k);
    ReplaceChanges(values[j], Pattern(k), values[k]);
    LoneHoleShows(t, values, j, i, ReplaceAll(values[j], Pattern(k), values[k]));
  }

  /** A filled template mentions a placeholder only if a value does. */
  lemma {:induction false} RenderedIsClean(t: seq<Segment>, values: map<string, string>, n: string)
    requires WellFormed(t) && IsName(n)
    requires forall s :: s in t && s.Hole? ==> s.name in values
    requires forall k :: k in values ==> !Contains(values[k], Pattern(n))
    ensures !Contains(Render(t, values), Pattern(n))
  {
    if t != [] {
      TailFits(t);
      RenderedIsClean(t[1..], values, n);
      var a, b := Fill(t[0], values), Render(t[1..], values);
      assert t[0] in t;
      if t[0].Hole? {
        TailIsGuarded(t, values);
      } else {
        NoDollarNoPattern(a, n);
      }
      GuardStopsStraddling(a, b, n);
      CleanConcat(a, b, Pattern(n));
    }
  }

  lemma CleanConcat(a: string, b: string, p: string)
    requires p != [] && !Contains(a, p) && !Contains(b, p) && NoStraddle(a, b, p)
    ensures !Contains(a + b, p)
  {
    forall i ensures !OccursAt(a + b, p, i) {
      assert !OccursAt(a, p, i) && !OccursAt(b, p, i - |a|);
      if |a| <= i <= |a + b| - |p| {
        assert (a + b)[i..i + |p|] == b[i - |a|..i - |a| + |p|];
      } else if 0 <= i <= |a| - |p| {
        assert (a + b)[i..i + |p|] == a[i..i + |p|];
      }
    }
  }
}
