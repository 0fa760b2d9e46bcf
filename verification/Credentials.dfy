/**
 Credentials in the driver's INI file: escaping them, reading them back the way the gcfg library
 does, and exactly which credentials survive the trip.
 */
module Credentials {

  predicate Special(c: char) { c == '"' || c == '\\' }

  function EscapeQuotesAndBackslashes(s: string): string {
    if s == [] then []
    else (if Special(s[0]) then ['\\', s[0]] else [s[0]]) + EscapeQuotesAndBackslashes(s[1..])
  }

  predicate Alphanumeric(c: char) { 'a' <= c <= 'z' || 'A' <= c <= 'Z' || '0' <= c <= '9' }

  predicate DomainChar(c: char) { Alphanumeric(c) || c == '.' || c == '-' }

  predicate UserChar(c: char) { DomainChar(c) || c == '_' }

  /** The whole name is letters, digits, `.` and `-`, one backslash, then the same and `_`. */
  predicate IsDomainUser(u: string) {
    exists i :: 0 < i < |u| - 1 && u[i] == '\\'
                && (forall k :: 0 <= k < i ==> DomainChar(u[k]))
                && (forall k :: i < k < |u| ==> UserChar(u[k]))
  }

  function EscapeBackslashInUsername(u: string): string {
    if IsDomainUser(u) then EscapeQuotesAndBackslashes(u) else u
  }

  // ---------- reading a value ----------

  /** `rest` starts at the character that ended the value. */
  datatype Reading = Value(text: string, rest: string) | Malformed

  const NUL := 0 as char

  predicate EndsValue(c: char) { c == '\n' || c == ';' || c == '#' }

  /** One step of the reader: stop, or consume `n` characters and go on in a new state. */
  datatype Move = Stop(reading: Reading) | Go(n: nat, quoted: bool, out: string, pending: string)

  /**
   The value scanner and the unquoting of its literal in one pass, one step at a time.  `quoted` is the
   scanner's quote state, `out` what the value holds so far, `pending` white space kept only if more
   text follows.  Carriage returns are dropped wherever they stand.
   */
  function Next(s: string, quoted: bool, out: string, pending: string): (m: Move)
    ensures m.Go? ==> 1 <= m.n <= |s|
  {
    if s == [] then Stop(if quoted then Malformed else Value(out, []))
    else if s[0] == NUL then Stop(Malformed)
    else if !quoted && EndsValue(s[0]) then Stop(Value(out, s))
    else if s[0] == '\\' then
      (if quoted then
         if |s| < 2 then Stop(Malformed)
         else if Special(s[1]) then Go(2, quoted, out + [s[1]], [])
         else if s[1] == 'n' then Go(2, quoted, out + ['\n'], [])
         else if s[1] == 't' then Go(2, quoted, out + ['\t'], [])
         else Stop(Malformed)
       else
         var n := if |s| > 1 && s[1] == '\r' then 2 else 1;
         if |s| == n then Stop(Malformed)
         else if s[n] == '"' then Go(n + 1, quoted, out + pending + ['"'], [])
         else if s[n] == '\n' then Go(n + 1, quoted, out + pending, [])
         else Stop(Malformed))
    else if s[0] == '"' then Go(1, !quoted, out + pending, [])
    else if s[0] == '\r' then Go(1, quoted, out, pending)
    else if s[0] == '\n' then Stop(Malformed)
    else if !quoted && (s[0] == ' ' || s[0] == '\t') then Go(1, quoted, out, pending + [s[0]])
    else Go(1, quoted, out + pending + [s[0]], [])
  }

  function Read(s: string, quoted: bool, out: string, pending: string): Reading
    decreases |s|
  {
    match Next(s, quoted, out, pending)
    case Stop(r) => r
    case Go(n, quoted', out', pending') => Read(s[n..], quoted', out', pending')
  }

  /** The reader at the character after `=` and white space. */
  function ReadValue(s: string): Reading { Read(s, false, [], []) }

  /** What follows the closing quote in the rendered file. */
  predicate LineEnds(tail: string) { tail == [] || tail[0] == '\n' }

  function Quoted(s: string): string { "\"" + s + "\"" }

  // ---------- passwords ----------

  predicate Breaking(c: char) { c == '\n' || c == NUL }

  /** No carriage return, line feed or NUL. */
  predicate Clean(s: string) { forall i :: 0 <= i < |s| ==> !Breaking(s[i]) && s[i] != '\r' }

  function DropReturns(s: string): string {
    if s == [] then [] else (if s[0] == '\r' then [] else [s[0]]) + DropReturns(s[1..])
  }

  lemma {:induction false} DropReturnsLength(s: string)
    ensures |DropReturns(s)| <= |s|
    ensures DropReturns(s) == s <==> forall i :: 0 <= i < |s| ==> s[i] != '\r'
  {
    if s != [] {
      DropReturnsLength(s[1..]);
      assert s == [s[0]] + s[1..];
    }
  }

  /** Reading one escaped character inside the quotes. */
  lemma ReadEscapedChar(c: char, rest: string, out: string)
    ensures var s := (if Special(c) then ['\\', c] else [c]) + rest;
            Read(s, true, out, []) == if Breaking(c) then Malformed
                                      else Read(rest, true, if c == '\r' then out else out + [c], [])
  {
    var s := (if Special(c) then ['\\', c] else [c]) + rest;
    assert s[if Special(c) then 2 else 1..] == rest;
    assert out + [] + [c] == out + [c];
  }

  /** Inside the quotes, the reader undoes the escaping up to carriage returns. */
  lemma {:induction false} ReadEscaped(p: string, tail: string, out: string)
    ensures Read(EscapeQuotesAndBackslashes(p) + "\"" + tail, true, out, [])
            == if forall i :: 0 <= i < |p| ==> !Breaking(p[i]) then Read(tail, false, out + DropReturns(p), [])
               else Malformed
    decreases |p|
  {
    var s := EscapeQuotesAndBackslashes(p) + "\"" + tail;
    if p == [] {
      assert s == ['"'] + tail && s[1..] == tail;
    } else {
      var rest := EscapeQuotesAndBackslashes(p[1..]) + "\"" + tail;
      var out' := if p[0] == '\r' then out else out + [p[0]];
      assert s == (if Special(p[0]) then ['\\', p[0]] else [p[0]]) + rest;
      ReadEscapedChar(p[0], rest, out);
      ReadEscaped(p[1..], tail, out');
      assert out' + DropReturns(p[1..]) == out + DropReturns(p);
      assert p == [p[0]] + p[1..];
    }
  }

  lemma OpeningQuote(inner: string)
    ensures ReadValue("\"" + inner) == Read(inner, true, [], [])
  {
    assert ("\"" + inner)[1..] == inner && "" + "" == "";
  }

  lemma LineEndEndsValue(tail: string, out: string)
    requires LineEnds(tail)
    ensures Read(tail, false, out, []) == Value(out, tail)
  {}

  lemma ReadQuotedEscaped(p: string, tail: string)
    requires LineEnds(tail)
    ensures ReadValue(Quoted(EscapeQuotesAndBackslashes(p)) + tail)
            == if forall i :: 0 <= i < |p| ==> !Breaking(p[i]) then Value(DropReturns(p), tail) else Malformed
  {
    QuotedReads(EscapeQuotesAndBackslashes(p), tail);
    ReadEscaped(p, tail, []);
    assert [] + DropReturns(p) == DropReturns(p);
    LineEndEndsValue(tail, DropReturns(p));
  }

  lemma QuotedReads(e: string, tail: string)
    ensures ReadValue(Quoted(e) + tail) == Read(e + "\"" + tail, true, [], [])
  {
    assert Quoted(e) + tail == "\"" + (e + "\"" + tail);
    OpeningQuote(e + "\"" + tail);
  }

  /** A password is read back, and reading stops at its closing quote, exactly when it has no CR, LF or NUL. */
  lemma PasswordRoundTrip(p: string, tail: string)
    requires LineEnds(tail)
    ensures ReadValue(Quoted(EscapeQuotesAndBackslashes(p)) + tail) == Value(p, tail) <==> Clean(p)
  {
    ReadQuotedEscaped(p, tail);
    DropReturnsLength(p);
  }

  // ---------- user names ----------

  lemma {:induction false} NothingToEscape(s: string)
    requires forall i :: 0 <= i < |s| ==> !Special(s[i])
    ensures EscapeQuotesAndBackslashes(s) == s
  {
    if s != [] {
      NothingToEscape(s[1..]);
      assert s == [s[0]] + s[1..];
    }
  }

  function Quotes(s: string): nat {
    if s == [] then 0 else (if s[0] == '"' then 1 else 0) + Quotes(s[1..])
  }

  /** Specials that cost a character: any backslash, and any quote but the one that closes. */
  predicate Shrinks(s: string, quoted: bool) {
    '\\' in s || Quotes(s) > (if quoted then 1 else 0)
  }

  /** The value is never longer than the text it was read from, and shorter by every special used. */
  lemma {:induction false} ReadingShrinks(s: string, quoted: bool, out: string, pending: string)
    requires quoted ==> pending == []
    ensures Read(s, quoted, out, pending).Value? ==>
              var v := Read(s, quoted, out, pending);
              && |v.rest| <= |s| && s[|s| - |v.rest|..] == v.rest
              && var used := s[..|s| - |v.rest|];
              |v.text| + (if quoted then 1 else 0) + (if Shrinks(used, quoted) then 1 else 0)
              <= |out| + |pending| + |used|
    decreases |s|
  {
    var v, m := Read(s, quoted, out, pending), Next(s, quoted, out, pending);
    if v.Value? && m.Go? {
      ReadingShrinks(s[m.n..], m.quoted, m.out, m.pending);
      UsedSplits(s, m.n, |s| - |v.rest|);
      StepShrinks(s, quoted, out, pending);
    }
  }

  /** What was used is what the first step used and what was used afterwards. */
  lemma UsedSplits(s: string, n: nat, end: nat)
    requires n <= end <= |s|
    ensures s[end..] == s[n..][end - n..]
    ensures Quotes(s[..end]) == Quotes(s[..n]) + Quotes(s[n..][..end - n])
    ensures '\\' in s[..end] <==> '\\' in s[..n] || '\\' in s[n..][..end - n]
  {
    assert s[..end] == s[..n] + s[n..][..end - n];
    QuotesConcat(s[..n], s[n..][..end - n]);
  }

  /** What one step costs: a special used up is a character lost. */
  lemma StepShrinks(s: string, quoted: bool, out: string, pending: string)
    requires (quoted ==> pending == []) && Next(s, quoted, out, pending).Go?
    ensures var m := Next(s, quoted, out, pending);
            var cost := |out| + |pending| + m.n - |m.out| - |m.pending|;
            var used := s[..m.n];
            && (m.quoted ==> m.pending == [])
            && (if s[0] == '"' then m.quoted == !quoted && cost >= 1 && Quotes(used) == 1 && '\\' !in used
                else if s[0] == '\\' then m.quoted == quoted && cost >= 1 && '\\' in used
                else m.quoted == quoted && cost >= 0 && Quotes(used) == 0 && '\\' !in used)
  {
    var m := Next(s, quoted, out, pending);
    assert s[..m.n][0] == s[0];
    if m.n == 1 { assert s[..1] == [s[0]]; }
  }

  lemma {:induction false} QuotesConcat(a: string, b: string)
    ensures Quotes(a + b) == Quotes(a) + Quotes(b)
  {
    if a == [] {
      assert a + b == b;
    } else {
      assert (a + b)[1..] == a[1..] + b;
      QuotesConcat(a[1..], b);
    }
  }

  lemma {:induction false} SpecialsCount(s: string)
    requires exists i :: 0 <= i < |s| && Special(s[i])
    ensures '\\' in s || Quotes(s) > 0
  {
    if !Special(s[0]) {
      assert s == [s[0]] + s[1..];
      SpecialsCount(s[1..]);
    }
  }

  /** An unescaped name with a quote or backslash does not come back. */
  lemma RawSpecialsAreLost(u: string, tail: string)
    requires exists i :: 0 <= i < |u| && Special(u[i])
    ensures ReadValue(Quoted(u) + tail) != Value(u, tail)
  {
    var inner := u + "\"" + tail;
    assert Quoted(u) + tail == "\"" + inner;
    OpeningQuote(inner);
    ReadingShrinks(inner, true, [], []);
    assert inner[..|inner| - |tail|] == u + "\"";
    SpecialsCount(u);
    QuotesConcat(u, "\"");
  }

  /** A user name survives exactly when it is DOMAIN\user, or has none of quote, backslash, CR, LF, NUL. */
  lemma UsernameRoundTrip(u: string, tail: string)
    requires LineEnds(tail)
    ensures ReadValue(Quoted(EscapeBackslashInUsername(u)) + tail) == Value(u, tail)
            <==> IsDomainUser(u) || (Clean(u) && forall i :: 0 <= i < |u| ==> !Special(u[i]))
  {
    if IsDomainUser(u) {
      PasswordRoundTrip(u, tail);
    } else if forall i :: 0 <= i < |u| ==> !Special(u[i]) {
      NothingToEscape(u);
      PasswordRoundTrip(u, tail);
    } else {
      RawSpecialsAreLost(u, tail);
    }
  }

  /** The names of the domain form are those of the regular expression. */
  lemma DomainUserMeans(x: string)
    ensures IsDomainUser(x) <==>
              exists d, u :: x == d + "\\" + u && d != "" && u != "" && InDomainAlphabet(d) && InUserAlphabet(u)
  {
    if IsDomainUser(x) {
      var i :| 0 < i < |x| - 1 && x[i] == '\\'
               && (forall k :: 0 <= k < i ==> DomainChar(x[k]))
               && (forall k :: i < k < |x| ==> UserChar(x[k]));
      assert x == x[..i] + "\\" + x[i + 1..];
      assert InDomainAlphabet(x[..i]) && InUserAlphabet(x[i + 1..]);
    }
    if d, u :| x == d + "\\" + u && d != "" && u != "" && InDomainAlphabet(d) && InUserAlphabet(u) {
      DomainUserFits(d, u);
    }
  }

  lemma DomainUserFits(d: string, u: string)
    requires d != "" && u != "" && InDomainAlphabet(d) && InUserAlphabet(u)
    ensures IsDomainUser(d + "\\" + u)
  {
    var x := d + "\\" + u;
    assert x[|d|] == '\\';
    forall k | 0 <= k < |d| ensures DomainChar(x[k]) { assert x[k] == d[k]; }
    forall k | |d| < k < |x| ensures UserChar(x[k]) { assert x[k] == u[k - |d| - 1]; }
  }

  ghost predicate InDomainAlphabet(d: string) {
    forall k :: 0 <= k < |d| ==>
      'a' <= d[k] <= 'z' || 'A' <= d[k] <= 'Z' || '0' <= d[k] <= '9' || d[k] == '.' || d[k] == '-'
  }

  ghost predicate InUserAlphabet(u: string) {
    forall k :: 0 <= k < |u| ==>
      'a' <= u[k] <= 'z' || 'A' <= u[k] <= 'Z' || '0' <= u[k] <= '9' || u[k] == '.' || u[k] == '-' || u[k] == '_'
  }

  /** Every DOMAIN\user over these alphabets survives, its backslash included. */
  lemma DomainUsersSurvive(d: string, u: string, tail: string)
    requires d != "" && u != "" && InDomainAlphabet(d) && InUserAlphabet(u) && LineEnds(tail)
    ensures ReadValue(Quoted(EscapeBackslashInUsername(d + "\\" + u)) + tail) == Value(d + "\\" + u, tail)
  {
    DomainUserFits(d, u);
    UsernameRoundTrip(d + "\\" + u, tail);
  }
}
