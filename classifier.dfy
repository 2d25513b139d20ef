/** The input classifier: the handler's test `/^https?:\/\/\S+$/i` applied to
    the trimmed request text. */
module Classifier {
  import opened JsText

  /** ASCII lower-casing. Under the `i` flag (without `u`) a character matches
      a letter of the pattern exactly when their upper-case forms agree, and no
      non-ASCII character canonicalises to an ASCII one, so for the ASCII
      pattern characters this is the whole of case-insensitive matching. */
  function Fold(c: char): char {
    if 'A' <= c <= 'Z' then (c as int + 32) as char else c
  }

  /** Lower-cases the ASCII letters of `s`; every other character is kept. */
  function FoldAll(s: string): (r: string)
    ensures |r| == |s| && forall i :: 0 <= i < |s| ==> r[i] == Fold(s[i])
    ensures forall i :: 0 <= i < |s| && !('A' <= s[i] <= 'Z') ==> r[i] == s[i]
  {
    seq(|s|, i requires 0 <= i < |s| => Fold(s[i]))
  }

  /** A URL in the sense of the handler: the whole string matches
      `^https?:\/\/\S+$` case-insensitively. Written as the regular
      expression is matched, token by token: `h` `t` `t` `p`, an optional `s`,
      `://`, then one or more non-whitespace characters up to the end. A URL is
      at least eight characters long and neither starts nor ends with
      whitespace. */
  predicate IsUrl(t: string)
    ensures IsUrl(t) ==> |t| >= 8 && !IsWs(t[0]) && !IsWs(t[|t| - 1])
  {
    |t| >= 4 && Fold(t[0]) == 'h' && Fold(t[1]) == 't' && Fold(t[2]) == 't' && Fold(t[3]) == 'p'
    && var k := if |t| > 4 && Fold(t[4]) == 's' then 5 else 4;
    |t| > k + 3 && t[k..k + 3] == "://" && NoWs(t[k + 3..])
  }

  /** The `i` flag: lower-casing the ASCII letters of a string does not change
      whether it is a URL. */
  lemma IsUrlCaseInsensitive(t: string)
    ensures IsUrl(FoldAll(t)) <==> IsUrl(t)
  {
    var f := FoldAll(t);
    if |t| >= 4 {
      var k := if |t| > 4 && Fold(t[4]) == 's' then 5 else 4;
      assert |f| > 4 && Fold(f[4]) == 's' <==> |t| > 4 && Fold(t[4]) == 's';
      if |t| > k + 3 {
        assert f[k..k + 3] == "://" <==> t[k..k + 3] == "://" by {
          var fs, ts := f[k..k + 3], t[k..k + 3];
          forall i | 0 <= i < 3 ensures fs[i] == "://"[i] <==> ts[i] == "://"[i] {
            assert fs[i] == f[k + i] && ts[i] == t[k + i];
          }
        }
        assert NoWs(f[k + 3..]) <==> NoWs(t[k + 3..]) by {
          var u, v := f[k + 3..], t[k + 3..];
          forall i | 0 <= i < |v| ensures IsWs(u[i]) <==> IsWs(v[i]) {
            assert u[i] == f[k + 3 + i] && v[i] == t[k + 3 + i];
          }
        }
      }
    }
  }

  /** The scheme part the pattern admits: `http://` or `https://` in any
      letter case. */
  predicate IsScheme(p: string) {
    FoldAll(p) == "http://" || FoldAll(p) == "https://"
  }

  /** Reference reading of the pattern: some non-empty proper prefix is a
      scheme and everything after it is non-whitespace. */
  predicate UrlShaped(t: string) {
    exists k :: 0 < k < |t| && IsScheme(t[..k]) && NoWs(t[k..])
  }

  lemma FoldedScheme(t: string, k: nat)
    requires k <= |t| && IsScheme(t[..k])
    ensures k == 7 || k == 8
    ensures Fold(t[0]) == 'h' && Fold(t[1]) == 't' && Fold(t[2]) == 't' && Fold(t[3]) == 'p'
    ensures k == 8 ==> Fold(t[4]) == 's'
    ensures t[k - 3..k] == "://"
  {
    var f := FoldAll(t[..k]);
    assert |f| == k;
    forall i | 0 <= i < k ensures Fold(t[i]) == f[i] {
      assert t[..k][i] == t[i];
    }
    assert Fold(t[k - 3]) == ':' && Fold(t[k - 2]) == '/' && Fold(t[k - 1]) == '/';
  }

  /** The token-by-token matcher and the reference reading agree on every
      string. */
  lemma IsUrlIff(t: string)
    ensures IsUrl(t) <==> UrlShaped(t)
  {
    if IsUrl(t) {
      var k := if |t| > 4 && Fold(t[4]) == 's' then 5 else 4;
      var f := FoldAll(t[..k + 3]);
      assert f[k..] == "://" by {
        var fs := f[k..];
        forall i | 0 <= i < 3 ensures fs[i] == "://"[i] {
          assert fs[i] == f[k + i] == Fold(t[..k + 3][k + i]);
          assert t[..k + 3][k + i] == t[k..k + 3][i];
        }
      }
      forall i | 0 <= i < k ensures f[i] == (if k == 5 then "https://" else "http://")[i] {
        assert t[..k + 3][i] == t[i];
      }
      assert IsScheme(t[..k + 3]);
    }
    if UrlShaped(t) {
      var k :| 0 < k < |t| && IsScheme(t[..k]) && NoWs(t[k..]);
      FoldedScheme(t, k);
      if k == 8 {
        assert |t| > 4 && Fold(t[4]) == 's';
      } else {
        assert Fold(t[4]) == ':';
      }
    }
  }

  /** A URL contains no whitespace at all, so text with inner spaces, such
      as a URL embedded among other words, is never classified as a URL. */
  lemma UrlHasNoWs(t: string)
    requires IsUrl(t)
    ensures NoWs(t)
  {
    var k := if |t| > 4 && Fold(t[4]) == 's' then 5 else 4;
    forall i | 0 <= i < |t| ensures !IsWs(t[i]) {
      if i < k {
        assert Fold(t[i]) in "https";
      } else if i < k + 3 {
        assert t[i] == t[k..k + 3][i - k];
      } else {
        assert t[i] == t[k + 3..][i - k - 3];
      }
    }
  }

  /** A URL padded with whitespace trims to the URL itself. */
  lemma PaddedUrl(text: string, a: nat, b: nat)
    requires a <= b <= |text| && WsIn(text, 0, a) && WsIn(text, b, |text|) && IsUrl(text[a..b])
    ensures Trim(text) == text[a..b]
  {
    var u := text[a..b];
    UrlHasNoWs(u);
    assert text[a] == u[0];
    assert text[b - 1] == u[|u| - 1];
    TrimWindow(text, a, b);
  }

  /** Classification of the request text: its trim is a URL exactly when the
      text is a URL padded with whitespace on either side. */
  lemma ClassifyIff(text: string)
    ensures IsUrl(Trim(text)) <==>
      exists i, j :: 0 <= i <= j <= |text| && WsIn(text, 0, i) && WsIn(text, j, |text|) && IsUrl(text[i..j])
  {
    if IsUrl(Trim(text)) {
      var i := FirstNonWs(text, 0);
      var j := i + |Trim(text)|;
      assert Trim(text) == text[i..j];
    } else {
      forall i, j | 0 <= i <= j <= |text| && WsIn(text, 0, i) && WsIn(text, j, |text|)
        ensures !IsUrl(text[i..j])
      {
        if IsUrl(text[i..j]) {
          PaddedUrl(text, i, j);
        }
      }
    }
  }
}
