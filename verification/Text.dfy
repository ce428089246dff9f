/** Python's string operations as the modelled code uses them. */
module Text {

  /** The characters for which `str.isspace` holds. */
  predicate IsSpace(c: char) {
    || '\t' <= c <= '\r'
    || '\U{1c}' <= c <= '\U{1f}'
    || c == ' ' || c == '\U{85}' || c == '\U{a0}' || c == '\U{1680}'
    || '\U{2000}' <= c <= '\U{200a}'
    || c == '\U{2028}' || c == '\U{2029}' || c == '\U{202f}' || c == '\U{205f}' || c == '\U{3000}'
  }

  function StripLeft(s: string): string {
    if s != [] && IsSpace(s[0]) then StripLeft(s[1..]) else s
  }

  function StripRight(s: string): string {
    if s != [] && IsSpace(s[|s| - 1]) then StripRight(s[..|s| - 1]) else s
  }

  /** `s.strip()` */
  function Strip(s: string): string {
    StripRight(StripLeft(s))
  }

  /** No whitespace at either end. */
  predicate Stripped(s: string) {
    s == [] || (!IsSpace(s[0]) && !IsSpace(s[|s| - 1]))
  }

  lemma {:induction false} StripLeftEnds(s: string)
    ensures var t := StripLeft(s); |t| <= |s| && t == s[|s| - |t|..] && (t == [] || !IsSpace(t[0]))
    ensures forall i :: 0 <= i < |s| - |StripLeft(s)| ==> IsSpace(s[i])
  {
    if s != [] && IsSpace(s[0]) {
      var rest := s[1..];
      StripLeftEnds(rest);
      var k := |rest| - |StripLeft(rest)|;
      assert rest[k..] == s[k + 1..];
      forall i | 0 <= i < k + 1 ensures IsSpace(s[i]) {
        assert i == 0 || s[i] == rest[i - 1];
      }
    }
  }

  lemma {:induction false} StripRightEnds(s: string)
    ensures var t := StripRight(s); |t| <= |s| && t == s[..|t|] && (t == [] || !IsSpace(t[|t| - 1]))
    ensures forall i :: |StripRight(s)| <= i < |s| ==> IsSpace(s[i])
  {
    if s != [] && IsSpace(s[|s| - 1]) {
      StripRightEnds(s[..|s| - 1]);
    }
  }

  /** `strip` yields a stripped string, keeps one that already is, and is empty only for blank text. */
  lemma StripFacts(s: string)
    ensures Stripped(Strip(s))
    ensures Strip(s) == s <==> Stripped(s)
    ensures Strip(s) == [] <==> forall c :: c in s ==> IsSpace(c)
    ensures forall c :: c in Strip(s) ==> c in s
  {
    var t := StripLeft(s);
    StripLeftEnds(s);
    StripRightEnds(t);
    if Strip(s) != [] {
      assert Strip(s)[0] == t[0];
    }
    if Strip(s) == [] {
      forall c | c in s ensures IsSpace(c) {
        assert t == [];
        var i :| 0 <= i < |s| && s[i] == c;
      }
    }
  }

  /** `strip` removes whitespace at the ends and nothing else. */
  lemma StripIsMiddle(s: string) returns (i: nat, j: nat)
    ensures i <= j <= |s| && Strip(s) == s[i..j]
    ensures forall k :: 0 <= k < i || j <= k < |s| ==> IsSpace(s[k])
  {
    var t := StripLeft(s);
    StripLeftEnds(s);
    StripRightEnds(t);
    i := |s| - |t|;
    j := i + |Strip(s)|;
    forall k | j <= k < |s| ensures IsSpace(s[k]) {
      assert s[k] == t[k - i];
    }
  }

  lemma StripTwice(s: string)
    ensures Strip(Strip(s)) == Strip(s)
  {
    StripFacts(s);
    StripFacts(Strip(s));
  }

  function WordLength(s: string): (n: nat)
    ensures n <= |s|
    ensures s != [] && !IsSpace(s[0]) ==> n > 0
  {
    if s == [] || IsSpace(s[0]) then 0 else 1 + WordLength(s[1..])
  }

  /** `s.split()` */
  function Words(s: string): seq<string>
    decreases |s|
  {
    if s == [] then []
    else if IsSpace(s[0]) then Words(s[1..])
    else [s[..WordLength(s)]] + Words(s[WordLength(s)..])
  }

  /** `s.lower()`, on ASCII letters. */
  function Lower(s: string): string {
    seq(|s|, i requires 0 <= i < |s| => if 'A' <= s[i] <= 'Z' then s[i] + 32 as char else s[i])
  }

  function Join(parts: seq<string>, separator: string): string {
    if parts == [] then ""
    else if |parts| == 1 then parts[0]
    else parts[0] + separator + Join(parts[1..], separator)
  }

  lemma {:induction false} JoinConcat(a: seq<string>, b: seq<string>, separator: string)
    ensures Join(a + b, separator) ==
            if a == [] then Join(b, separator) else if b == [] then Join(a, separator)
            else Join(a, separator) + separator + Join(b, separator)
  {
    if a == [] {
      assert a + b == b;
    } else if b == [] {
      assert a + b == a;
    } else {
      assert (a + b)[1..] == a[1..] + b;
      JoinConcat(a[1..], b, separator);
      if |a| > 1 {
        var first, middle, last := a[0] + separator, Join(a[1..], separator), Join(b, separator);
        assert first + (middle + separator + last) == first + middle + separator + last;
      }
    }
  }

  /** `piece` stands in `whole` from position `at` on. */
  ghost predicate StandsAt<T>(whole: seq<T>, at: nat, piece: seq<T>) {
    at + |piece| <= |whole| && whole[at..at + |piece|] == piece
  }

  lemma StandsInParts<T>(whole: seq<T>, at: nat, a: seq<T>, b: seq<T>)
    ensures StandsAt(whole, at, a + b) <==> StandsAt(whole, at, a) && StandsAt(whole, at + |a|, b)
  {
    if at + |a + b| <= |whole| {
      assert whole[at..at + |a + b|] == whole[at..at + |a|] + whole[at + |a|..at + |a| + |b|];
      assert (a + b)[..|a|] == a && (a + b)[|a|..] == b;
    }
  }

  lemma StandsShifted<T>(before: seq<T>, whole: seq<T>, at: nat, piece: seq<T>)
    requires StandsAt(whole, at, piece)
    ensures StandsAt(before + whole, |before| + at, piece)
  {
  }

  lemma StandsBefore<T>(whole: seq<T>, after: seq<T>, at: nat, piece: seq<T>)
    requires StandsAt(whole, at, piece)
    ensures StandsAt(whole + after, at, piece)
  {
  }

  /** The `k`-th part stands at its start, followed by the separator unless it is the last. */
  ghost predicate PartAt(s: string, parts: seq<string>, separator: string, starts: seq<nat>, k: nat)
    requires k < |parts| && |starts| == |parts| + 1
  {
    && StandsAt(s, starts[k], parts[k])
    && (k < |parts| - 1 ==> StandsAt(s, starts[k] + |parts[k]|, separator))
    && starts[k + 1] == starts[k] + |parts[k]| + |separator|
  }

  /** The parts stand in `s` in order, from `starts` on, with `separator` between neighbours and nothing else. */
  ghost predicate Laid(s: string, parts: seq<string>, separator: string, starts: seq<nat>) {
    && |starts| == |parts| + 1
    && starts[0] == 0
    && (forall k :: 0 <= k < |parts| ==> PartAt(s, parts, separator, starts, k))
    && |s| + (if parts == [] then 0 else |separator|) == starts[|parts|]
  }

  lemma {:induction false} JoinIsLaid(parts: seq<string>, separator: string) returns (starts: seq<nat>)
    ensures Laid(Join(parts, separator), parts, separator, starts)
  {
    if parts == [] {
      starts := [0];
    } else if |parts| == 1 {
      starts := [0, |parts[0]| + |separator|];
    } else {
      var rest := JoinIsLaid(parts[1..], separator);
      starts := LaidAfter(Join(parts[1..], separator), parts, separator, rest);
    }
  }

  lemma LaidAfter(s: string, parts: seq<string>, separator: string, rest: seq<nat>) returns (starts: seq<nat>)
    requires |parts| > 1 && Laid(s, parts[1..], separator, rest)
    ensures Laid(parts[0] + separator + s, parts, separator, starts)
  {
    var before := parts[0] + separator;
    starts := [0] + seq(|rest|, k requires 0 <= k < |rest| => |before| + rest[k]);
    BeginsWith(parts[0], separator, s);
    hide StandsAt;
    forall k | 0 <= k < |parts| ensures PartAt(before + s, parts, separator, starts, k) {
      if k > 0 {
        assert PartAt(s, parts[1..], separator, rest, k - 1);
        PartAfter(s, parts, separator, rest, starts, k);
      }
    }
  }

  lemma PartAfter(s: string, parts: seq<string>, separator: string, rest: seq<nat>, starts: seq<nat>, k: nat)
    requires 0 < k < |parts| == |rest| == |starts| - 1 && PartAt(s, parts[1..], separator, rest, k - 1)
    requires starts[k] == |parts[0] + separator| + rest[k - 1]
    requires starts[k + 1] == |parts[0] + separator| + rest[k]
    ensures PartAt(parts[0] + separator + s, parts, separator, starts, k)
  {
    hide StandsAt;
    var before := parts[0] + separator;
    assert parts[1..][k - 1] == parts[k];
    StandsShifted(before, s, rest[k - 1], parts[k]);
    if k < |parts| - 1 {
      StandsShifted(before, s, rest[k - 1] + |parts[k]|, separator);
    }
  }

  lemma BeginsWith<T>(a: seq<T>, b: seq<T>, rest: seq<T>)
    ensures StandsAt(a + b + rest, 0, a) && StandsAt(a + b + rest, |a|, b)
  {
  }
}
