/** Text cells: `strip`, `upper` and the order of `sorted`, over ASCII. */
module Text {
  import opened Outcomes

  predicate IsSpace(c: char) {
    9 <= c as int <= 13 || 28 <= c as int <= 32
  }

  function UpperChar(c: char): char {
    if 'a' <= c <= 'z' then c - 32 as char else c
  }

  function StripLeft(s: string): string {
    if s != "" && IsSpace(s[0]) then StripLeft(s[1..]) else s
  }

  function StripRight(s: string): string {
    if s != "" && IsSpace(s[|s| - 1]) then StripRight(s[..|s| - 1]) else s
  }

  function Strip(s: string): string {
    StripRight(StripLeft(s))
  }

  function Upper(s: string): string {
    seq(|s|, i requires 0 <= i < |s| => UpperChar(s[i]))
  }

  /** `str(cell).strip().upper()` */
  function Norm(s: string): string {
    Upper(Strip(s))
  }

  /** `str(raw or "").strip()`, None when empty. */
  function OptText(s: string): Option<string> {
    if Strip(s) == "" then None else Some(Strip(s))
  }

  predicate Trimmed(s: string) {
    s == "" || (!IsSpace(s[0]) && !IsSpace(s[|s| - 1]))
  }

  lemma TrimmedIsStripped(s: string)
    requires Trimmed(s)
    ensures Strip(s) == s
  {
  }

  lemma {:induction false} StripLeftTrims(s: string)
    ensures StripLeft(s) == "" || !IsSpace(StripLeft(s)[0])
    decreases |s|
  {
    if s != "" && IsSpace(s[0]) { StripLeftTrims(s[1..]); }
  }

  lemma {:induction false} StripRightTrims(s: string)
    requires s == "" || !IsSpace(s[0])
    ensures Trimmed(StripRight(s))
    decreases |s|
  {
    if s != "" && IsSpace(s[|s| - 1]) { StripRightTrims(s[..|s| - 1]); }
  }

  lemma StripTrims(s: string)
    ensures Trimmed(Strip(s)) && Strip(Strip(s)) == Strip(s)
  {
    StripLeftTrims(s);
    StripRightTrims(StripLeft(s));
    TrimmedIsStripped(Strip(s));
  }

  /** Normalising twice is normalising once. */
  lemma NormIdempotent(s: string)
    ensures Norm(Norm(s)) == Norm(s) && Strip(Norm(s)) == Norm(s) && Trimmed(Norm(s))
    ensures Norm(s) == "" <==> Strip(s) == ""
  {
    StripTrims(s);
    var t := Strip(s);
    assert |Norm(s)| == |t|;
    assert forall i :: 0 <= i < |t| ==> (IsSpace(Norm(s)[i]) <==> IsSpace(t[i]));
    TrimmedIsStripped(Norm(s));
    assert Upper(Norm(s)) == Norm(s);
  }

  lemma {:induction false} StripLeftExactly(s: string) returns (i: nat)
    ensures i <= |s| && StripLeft(s) == s[i..] && (i < |s| ==> !IsSpace(s[i]))
    ensures forall k :: 0 <= k < i ==> IsSpace(s[k])
    decreases |s|
  {
    i := 0;
    if s != "" && IsSpace(s[0]) {
      var rest := StripLeftExactly(s[1..]);
      i := rest + 1;
    }
  }

  lemma {:induction false} StripRightExactly(s: string) returns (j: nat)
    ensures j <= |s| && StripRight(s) == s[..j] && (j > 0 ==> !IsSpace(s[j - 1]))
    ensures forall k :: j <= k < |s| ==> IsSpace(s[k])
    decreases |s|
  {
    j := |s|;
    if s != "" && IsSpace(s[|s| - 1]) { j := StripRightExactly(s[..|s| - 1]); }
  }

  /** `strip` cuts exactly the white space (codes 9 to 13 and 28 to 32) at both ends. */
  lemma StripExactly(s: string) returns (i: nat, j: nat)
    ensures i <= j <= |s| && Strip(s) == s[i..j]
    ensures forall k :: 0 <= k < i || j <= k < |s| ==> 9 <= s[k] as int <= 13 || 28 <= s[k] as int <= 32
    ensures i < j ==> !(9 <= s[i] as int <= 13 || 28 <= s[i] as int <= 32)
    ensures i < j ==> !(9 <= s[j - 1] as int <= 13 || 28 <= s[j - 1] as int <= 32)
  {
    i := StripLeftExactly(s);
    var n := StripRightExactly(s[i..]);
    j := i + n;
    assert s[i..][..n] == s[i..j];
    assert forall k :: j <= k < |s| ==> s[k] == s[i..][k - i];
  }

  /** `upper` raises exactly the letters a to z, in place. */
  lemma UpperExactly(s: string)
    ensures |Upper(s)| == |s|
    ensures forall k :: 0 <= k < |s| ==>
              if 'a' <= s[k] <= 'z' then Upper(s)[k] as int == s[k] as int - 32 else Upper(s)[k] == s[k]
  {
  }

  // ---------------------------------------------------------------- order

  /** The order is lexicographic: a proper prefix, or a smaller character at the first difference. */
  lemma {:induction false} LessExactly(a: string, b: string, n: nat)
    requires n <= |a| && n <= |b| && a[..n] == b[..n] && (n == |a| || n == |b| || a[n] != b[n])
    ensures Less(a, b) <==> n < |b| && (n == |a| || a[n] < b[n])
    decreases n
  {
    if n > 0 {
      assert a[0] == a[..n][0] && b[0] == b[..n][0];
      assert a[1..][..n - 1] == a[..n][1..] && b[1..][..n - 1] == b[..n][1..];
      LessExactly(a[1..], b[1..], n - 1);
    }
  }

  /** Strict lexicographic order by code point. */
  predicate Less(a: string, b: string) {
    b != "" && (a == "" || a[0] < b[0] || (a[0] == b[0] && Less(a[1..], b[1..])))
  }

  lemma {:induction false} LessTrans(a: string, b: string, c: string)
    requires Less(a, b) && Less(b, c)
    ensures Less(a, c)
    decreases |a|
  {
    if a != "" && a[0] == b[0] && b[0] == c[0] { LessTrans(a[1..], b[1..], c[1..]); }
  }

  lemma {:induction false} LessTotal(a: string, b: string)
    ensures a == b || Less(a, b) || Less(b, a)
    ensures !(Less(a, b) && Less(b, a)) && !Less(a, a)
    decreases |a|
  {
    if a != "" {
      LessTotal(a[1..], a[1..]);
      if b != "" && a[0] == b[0] {
        LessTotal(a[1..], b[1..]);
        assert a == [a[0]] + a[1..] && b == [b[0]] + b[1..];
      }
    }
  }

  ghost predicate Sorted(s: seq<string>) {
    forall i, j :: 0 <= i < j < |s| ==> Less(s[i], s[j])
  }

  /** Where `x` goes in a sorted list that does not hold it. */
  method Insert(x: string, s: seq<string>) returns (r: seq<string>)
    requires Sorted(s) && x !in s
    ensures Sorted(r) && (forall y :: y in r <==> y in s || y == x) && |r| == |s| + 1
  {
    var k := 0;
    while k < |s| && Less(s[k], x)
      invariant 0 <= k <= |s|
      invariant forall i :: 0 <= i < k ==> Less(s[i], x)
    {
      k := k + 1;
    }
    r := s[..k] + [x] + s[k..];
    if k < |s| {
      LessTotal(s[k], x);
      forall j | k < j < |s| ensures Less(x, s[j]) { LessTrans(x, s[k], s[j]); }
    }
    assert s == s[..k] + s[k..];
  }

  /** `sorted(keys)` */
  method SortKeys(keys: set<string>) returns (r: seq<string>)
    ensures Sorted(r) && forall y :: y in r <==> y in keys
  {
    r := [];
    var rest := keys;
    while rest != {}
      invariant rest <= keys && Sorted(r)
      invariant forall y :: y in r <==> y in keys - rest
      decreases |rest|
    {
      var x :| x in rest;
      r := Insert(x, r);
      rest := rest - {x};
    }
  }
}
