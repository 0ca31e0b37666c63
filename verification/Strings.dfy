/** The part of Go's `strings` package that the models rely on. */
module Strings {

  /** The characters with Unicode's White Space property, which `strings.TrimSpace` removes. */
  predicate IsSpace(c: char) {
    || c == ' '
    || '\U{0009}' <= c <= '\U{000D}'
    || c == '\U{0085}'
    || c == '\U{00A0}'
    || c == '\U{1680}'
    || '\U{2000}' <= c <= '\U{200A}'
    || c == '\U{2028}'
    || c == '\U{2029}'
    || c == '\U{202F}'
    || c == '\U{205F}'
    || c == '\U{3000}'
  }

  function TrimLeft(s: string): string {
    if s != "" && IsSpace(s[0]) then TrimLeft(s[1..]) else s
  }

  function TrimRight(s: string): string {
    if s != "" && IsSpace(s[|s| - 1]) then TrimRight(s[..|s| - 1]) else s
  }

  function TrimSpace(s: string): string {
    TrimRight(TrimLeft(s))
  }

  predicate Trimmed(s: string) {
    s == "" || (!IsSpace(s[0]) && !IsSpace(s[|s| - 1]))
  }

  lemma {:induction false} TrimLeftStops(s: string)
    ensures TrimLeft(s) == "" || !IsSpace(TrimLeft(s)[0])
  {
    if s != "" && IsSpace(s[0]) {
      TrimLeftStops(s[1..]);
    }
  }

  lemma {:induction false} TrimRightStops(s: string)
    ensures TrimRight(s) == "" || (!IsSpace(TrimRight(s)[|TrimRight(s)| - 1]) && TrimRight(s)[0] == s[0])
  {
    if s != "" && IsSpace(s[|s| - 1]) {
      TrimRightStops(s[..|s| - 1]);
    }
  }

  /** Trimming reaches a fixed point at once. */
  lemma TrimSpaceIsIdempotent(s: string)
    ensures Trimmed(TrimSpace(s))
    ensures TrimSpace(TrimSpace(s)) == TrimSpace(s)
  {
    TrimLeftStops(s);
    TrimRightStops(TrimLeft(s));
  }

  predicate AllSpaces(s: string) {
    forall i :: 0 <= i < |s| ==> IsSpace(s[i])
  }

  lemma {:induction false} TrimLeftDropsSpaces(s: string) returns (n: nat)
    ensures n <= |s| && AllSpaces(s[..n]) && TrimLeft(s) == s[n..]
  {
    n := 0;
    if s != "" && IsSpace(s[0]) {
      n := TrimLeftDropsSpaces(s[1..]);
      assert s[..n + 1] == [s[0]] + s[1..][..n] && s[n + 1..] == s[1..][n..];
      n := n + 1;
    }
  }

  lemma {:induction false} TrimRightDropsSpaces(s: string) returns (n: nat)
    ensures n <= |s| && AllSpaces(s[n..]) && TrimRight(s) == s[..n]
  {
    n := |s|;
    if s != "" && IsSpace(s[|s| - 1]) {
      var front := s[..|s| - 1];
      n := TrimRightDropsSpaces(front);
      assert s[n..] == front[n..] + [s[|s| - 1]] && s[..n] == front[..n];
    }
  }

  predicate CutsSpaces(s: string, i: int, j: int) {
    0 <= i <= j <= |s| && AllSpaces(s[..i]) && AllSpaces(s[j..])
  }

  /** Trimming cuts spaces off both ends and nothing else. */
  lemma TrimSpaceDropsSpaces(s: string)
    ensures exists i, j :: CutsSpaces(s, i, j) && TrimSpace(s) == s[i..j]
  {
    var i := TrimLeftDropsSpaces(s);
    var k := TrimRightDropsSpaces(s[i..]);
    assert s[i..][k..] == s[i + k..] && s[i..][..k] == s[i..i + k];
    assert CutsSpaces(s, i, i + k);
  }

  predicate HasPrefix(s: string, prefix: string) {
    prefix <= s
  }
}
