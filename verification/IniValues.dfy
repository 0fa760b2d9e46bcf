/** Values that the driver's INI file holds without quotes, or quoted but not escaped: exactly which ones read back. */
module IniValues {
  import opened Credentials

  predicate Blank(c: char) { c == ' ' || c == '\t' }

  /** White space behind the equals sign is skipped. */
  function SkipBlanks(s: string): string {
    if s != [] && (Blank(s[0]) || s[0] == '\r') then SkipBlanks(s[1..]) else s
  }

  /** Reading an assignment from behind its equals sign. */
  function ReadAssigned(s: string): Reading { ReadValue(SkipBlanks(s)) }

  /** Neither special, nor broken off at, nor dropped, nor the start of a comment. */
  predicate PlainChar(c: char) { !Special(c) && !Breaking(c) && c != '\r' && c != ';' && c != '#' }

  predicate AllPlain(x: string) { forall i :: 0 <= i < |x| ==> PlainChar(x[i]) }

  predicate NoSpecials(x: string) { forall i :: 0 <= i < |x| ==> !Special(x[i]) }

  /** What may stand unquoted: plain characters, no blank at either end. */
  predicate Bare(x: string) {
    AllPlain(x) && (x != [] ==> !Blank(x[0]) && !Blank(x[|x| - 1]))
  }

  /** The text up to the last character that is not blank, behind `pending`. */
  function Core(pending: string, x: string): string
    decreases |x|
  {
    if x == [] then []
    else if Blank(x[0]) then Core(pending + [x[0]], x[1..])
    else pending + [x[0]] + Core([], x[1..])
  }

  lemma {:induction false} CoreIs(pending: string, x: string)
    ensures x != [] && !Blank(x[|x| - 1]) ==> Core(pending, x) == pending + x
    ensures x != [] && Blank(x[|x| - 1]) ==> |Core(pending, x)| < |pending| + |x|
    decreases |x|
  {
    if x != [] {
      if Blank(x[0]) {
        CoreIs(pending + [x[0]], x[1..]);
        assert pending + [x[0]] + x[1..] == pending + x;
      } else {
        CoreIs([], x[1..]);
        assert x == [x[0]] + x[1..];
      }
    }
  }

  lemma {:induction false} ReadPlain(x: string, tail: string, out: string, pending: string)
    requires AllPlain(x) && LineEnds(tail)
    ensures Read(x + tail, false, out, pending) == Value(out + Core(pending, x), tail)
    decreases |x|
  {
    if x == [] {
      assert x + tail == tail && out + Core(pending, x) == out;
    } else {
      assert (x + tail)[0] == x[0] && (x + tail)[1..] == x[1..] + tail;
      if Blank(x[0]) {
        ReadPlain(x[1..], tail, out, pending + [x[0]]);
      } else {
        ReadPlain(x[1..], tail, out + pending + [x[0]], []);
        assert out + pending + [x[0]] + Core([], x[1..]) == out + (pending + [x[0]] + Core([], x[1..]));
      }
    }
  }

  /** Without specials, any other character that is not plain ends the value early, breaks it, or is lost. */
  lemma {:induction false} ReadUnplain(x: string, tail: string, out: string, pending: string)
    requires NoSpecials(x) && !AllPlain(x)
    ensures var v := Read(x + tail, false, out, pending);
            v.Value? && v.rest == tail ==> |v.text| < |out| + |pending| + |x|
    decreases |x|
  {
    var s := x + tail;
    assert s[0] == x[0] && s[1..] == x[1..] + tail;
    if x[0] == '\r' {
      ReadingShrinks(s[1..], false, out, pending);
    } else if PlainChar(x[0]) {
      assert x == [x[0]] + x[1..];
      if Blank(x[0]) {
        ReadUnplain(x[1..], tail, out, pending + [x[0]]);
      } else {
        ReadUnplain(x[1..], tail, out + pending + [x[0]], []);
      }
    }
  }

  lemma {:induction false} SkipBlanksShortens(s: string)
    ensures |SkipBlanks(s)| <= |s|
    ensures SkipBlanks(s) == s <==> s == [] || !(Blank(s[0]) || s[0] == '\r')
    ensures s[|s| - |SkipBlanks(s)|..] == SkipBlanks(s)
  {
    if s != [] && (Blank(s[0]) || s[0] == '\r') { SkipBlanksShortens(s[1..]); }
  }

  /** A value is no longer than its text, and shorter if that holds specials. */
  lemma ValueFits(s: string, x: string, tail: string)
    requires ReadValue(s) == Value(x, tail)
    ensures |s| >= |x| + |tail|
    ensures s == x + tail ==> NoSpecials(x)
  {
    ReadingShrinks(s, false, [], []);
    if s == x + tail {
      assert s[..|s| - |tail|] == x;
      if !NoSpecials(x) { SpecialsCount(x); }
    }
  }

  /** A value that reads back was read from all of its text, without specials. */
  lemma ReadBackIsWhole(x: string, tail: string)
    requires ReadAssigned(x + tail) == Value(x, tail)
    ensures SkipBlanks(x + tail) == x + tail && NoSpecials(x)
  {
    SkipBlanksShortens(x + tail);
    ValueFits(SkipBlanks(x + tail), x, tail);
  }

  lemma PlainRoundTrip(x: string, tail: string)
    requires LineEnds(tail) && AllPlain(x) && x != []
    ensures !Blank(x[0]) ==> ReadAssigned(x + tail) == Value(Core([], x), tail)
    ensures Blank(x[0]) ==> ReadAssigned(x + tail) != Value(x, tail)
  {
    SkipBlanksShortens(x + tail);
    assert (x + tail)[0] == x[0];
    ReadPlain(x, tail, [], []);
    assert [] + Core([], x) == Core([], x);
    if ReadAssigned(x + tail) == Value(x, tail) { ReadBackIsWhole(x, tail); }
  }

  lemma UnplainIsLost(x: string, tail: string)
    requires !AllPlain(x)
    ensures ReadAssigned(x + tail) != Value(x, tail)
  {
    if ReadAssigned(x + tail) == Value(x, tail) {
      ReadBackIsWhole(x, tail);
      ReadUnplain(x, tail, [], []);
      assert false;
    }
  }

  lemma NothingRoundTrip(tail: string)
    requires LineEnds(tail)
    ensures ReadAssigned([] + tail) == Value([], tail)
  {
    assert [] + tail == tail;
  }

  /** An unquoted value at the end of its line reads back exactly when it is bare. */
  lemma BareRoundTrip(x: string, tail: string)
    requires LineEnds(tail)
    ensures ReadAssigned(x + tail) == Value(x, tail) <==> Bare(x)
  {
    if x == [] {
      NothingRoundTrip(tail);
    } else if AllPlain(x) {
      PlainRoundTrip(x, tail);
      CoreIs([], x);
      assert [] + x == x;
    } else {
      UnplainIsLost(x, tail);
    }
  }

  /** A value that is quoted but not escaped reads back exactly when it needs no escaping. */
  lemma QuotedRoundTrip(x: string, tail: string)
    requires LineEnds(tail)
    ensures ReadValue(Quoted(x) + tail) == Value(x, tail) <==> Clean(x) && NoSpecials(x)
  {
    if NoSpecials(x) {
      NothingToEscape(x);
      PasswordRoundTrip(x, tail);
    } else {
      RawSpecialsAreLost(x, tail);
    }
  }
}
