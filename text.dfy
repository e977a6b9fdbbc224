/** String helpers shared by the asset resolver and the page renderer. */
module Text {

  /** `[String]::join`: the parts, with `sep` between each two consecutive ones. */
  function Join(sep: string, parts: seq<string>): string {
    if |parts| == 0 then ""
    else if |parts| == 1 then parts[0]
    else parts[0] + sep + Join(sep, parts[1..])
  }

  /** `t` occurs in `s` starting at index `k`. */
  ghost predicate IsAt(s: string, t: string, k: int) {
    0 <= k && k + |t| <= |s| && s[k..k + |t|] == t
  }

  predicate EndsWith(s: string, t: string) {
    |t| <= |s| && s[|s| - |t|..] == t
  }

  lemma IsAtAfter(a: string, t: string, b: string)
    ensures IsAt(a + t + b, t, |a|)
  {
    assert (a + t + b)[|a|..|a| + |t|] == t;
  }

  lemma IsAtPrefix(a: string, b: string, t: string, k: int)
    requires IsAt(a, t, k)
    ensures IsAt(a + b, t, k)
  {
    assert (a + b)[k..k + |t|] == a[k..k + |t|];
  }

  lemma IsAtShift(a: string, b: string, t: string, k: int)
    requires IsAt(b, t, k)
    ensures IsAt(a + b, t, |a| + k)
  {
    assert (a + b)[|a| + k..|a| + k + |t|] == b[k..k + |t|];
  }
}
