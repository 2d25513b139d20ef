/** JavaScript string primitives the route handler relies on: the whitespace
    class shared by `String.prototype.trim` and the regular-expression escape
    `\s` (so also its complement `\S`), and `trim` itself. */
module JsText {

  /** A WhiteSpace or LineTerminator code point of ECMAScript: TAB, VT, FF,
      SPACE, NBSP, ZWNBSP, the other Unicode "Zs" separators, LF, CR, LS, PS.
      Among ASCII characters these are exactly TAB, LF, VT, FF, CR and SPACE
      (the information separators U+001C..U+001F are not whitespace here). */
  predicate IsWs(c: char)
    ensures c as int < 128 ==> (IsWs(c) <==> c in "\t\n\U{000B}\U{000C}\r ")
  {
    c == '\t' || c == '\U{000B}' || c == '\U{000C}' || c == ' ' || c == '\U{00A0}' || c == '\U{FEFF}'
    || c == '\n' || c == '\r' || c == '\U{2028}' || c == '\U{2029}'
    || c == '\U{1680}' || ('\U{2000}' <= c <= '\U{200A}') || c == '\U{202F}' || c == '\U{205F}'
    || c == '\U{3000}'
  }

  /** Every character of `s` is whitespace (vacuously true of ""). */
  predicate AllWs(s: string) {
    forall i :: 0 <= i < |s| ==> IsWs(s[i])
  }

  /** No character of `s` is whitespace: `s` matches `^\S*$`. */
  predicate NoWs(s: string) {
    forall i :: 0 <= i < |s| ==> !IsWs(s[i])
  }

  /** The characters at positions `lo` up to `hi` (exclusive) are whitespace. */
  predicate WsIn(s: string, lo: nat, hi: nat)
    requires lo <= hi <= |s|
  {
    forall k :: lo <= k < hi ==> IsWs(s[k])
  }

  /** The first position at or after `i` that holds no whitespace, or `|s|`. */
  function FirstNonWs(s: string, i: nat): (k: nat)
    requires i <= |s|
    ensures i <= k <= |s| && WsIn(s, i, k)
    ensures k == |s| || !IsWs(s[k])
    decreases |s| - i
  {
    if i < |s| && IsWs(s[i]) then FirstNonWs(s, i + 1) else i
  }

  /** Scanning down from `j` to `lo`: the position just past the last
      character before `j` that is not whitespace, or `lo`. */
  function EndOfNonWs(s: string, lo: nat, j: nat): (k: nat)
    requires lo <= j <= |s|
    ensures lo <= k <= j && WsIn(s, k, j)
    ensures k == lo || !IsWs(s[k - 1])
    decreases j
  {
    if j > lo && IsWs(s[j - 1]) then EndOfNonWs(s, lo, j - 1) else j
  }

  /** `String.prototype.trim`: drops the leading and the trailing whitespace.
      The result is a slice of `s` with only whitespace before and after it,
      and it neither starts nor ends with whitespace. */
  function Trim(s: string): (r: string)
    ensures var lo := FirstNonWs(s, 0);
      lo + |r| <= |s| && r == s[lo..lo + |r|] && WsIn(s, 0, lo) && WsIn(s, lo + |r|, |s|)
    ensures r == [] || (!IsWs(r[0]) && !IsWs(r[|r| - 1]))
  {
    var lo := FirstNonWs(s, 0);
    var hi := EndOfNonWs(s, lo, |s|);
    assert WsIn(s, hi, |s|);
    s[lo..hi]
  }

  /** Trimming yields "" exactly when the string is blank (the handler's
      `!x.trim()` test). */
  lemma TrimBlankIff(s: string)
    ensures Trim(s) == [] <==> AllWs(s)
  {
    var lo := FirstNonWs(s, 0);
    var hi := EndOfNonWs(s, lo, |s|);
    if Trim(s) == [] {
      assert lo == |s| by {
        assert WsIn(s, hi, |s|);
      }
      assert WsIn(s, 0, lo);
    }
  }

  /** Whitespace padding around a string that neither starts nor ends with
      whitespace is exactly what `trim` removes. */
  lemma TrimWindow(s: string, a: nat, b: nat)
    requires a < b <= |s| && WsIn(s, 0, a) && WsIn(s, b, |s|)
    requires !IsWs(s[a]) && !IsWs(s[b - 1])
    ensures Trim(s) == s[a..b]
  {
    var lo := FirstNonWs(s, 0);
    assert lo == a;
    var hi := EndOfNonWs(s, lo, |s|);
    assert hi == b by {
      assert WsIn(s, hi, |s|);
    }
  }

  /** A string that neither starts nor ends with whitespace is its own trim. */
  lemma TrimFixed(s: string)
    requires s == [] || (!IsWs(s[0]) && !IsWs(s[|s| - 1]))
    ensures Trim(s) == s
  {
    if s != [] {
      TrimWindow(s, 0, |s|);
    }
  }

  /** Trimming twice is trimming once. */
  lemma TrimIdempotent(s: string)
    ensures Trim(Trim(s)) == Trim(s)
  {
    TrimFixed(Trim(s));
  }
}
