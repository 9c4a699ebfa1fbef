/**
 Python string splitting as the statement parser uses it: `str.split()` with
 no separator (runs of whitespace separate tokens, leading and trailing
 whitespace is dropped), `" ".join(...)`, and `str.split('\n')` (every newline
 separates two pieces, empty pieces are kept).
 */
module Text {

  /** The characters `str.isspace()` accepts, which are the separators of `str.split()`. */
  predicate IsSpace(c: char) {
    || c == ' ' || c == '\t' || c == '\n' || c == '\r'
    || c == '\U{B}' || c == '\U{C}'
    || ('\U{1C}' <= c <= '\U{1F}')
    || c == '\U{85}' || c == '\U{A0}' || c == '\U{1680}'
    || ('\U{2000}' <= c <= '\U{200A}')
    || c == '\U{2028}' || c == '\U{2029}' || c == '\U{202F}' || c == '\U{205F}'
    || c == '\U{3000}'
  }

  /** A token is what `str.split()` can return: non-empty, no whitespace inside. */
  predicate IsToken(w: string) {
    |w| > 0 && forall i :: 0 <= i < |w| ==> !IsSpace(w[i])
  }

  predicate AllTokens(ws: seq<string>) {
    forall i :: 0 <= i < |ws| ==> IsToken(ws[i])
  }

  /** The characters of `s` that are not whitespace, in order. */
  function NonSpace(s: string): string {
    if |s| == 0 then []
    else if IsSpace(s[0]) then NonSpace(s[1..])
    else [s[0]] + NonSpace(s[1..])
  }

  function Concat(ws: seq<string>): string {
    if |ws| == 0 then [] else ws[0] + Concat(ws[1..])
  }

  /** `s.split()`: the maximal runs of non-whitespace characters of `s`, left to right. */
  function Split(s: string): (r: seq<string>)
    ensures AllTokens(r)
    ensures |s| > 0 && !IsSpace(s[0]) ==> |r| > 0 && r[0][0] == s[0]
    decreases |s|
  {
    if |s| == 0 then []
    else if IsSpace(s[0]) then Split(s[1..])
    else
      var rest := Split(s[1..]);
      if |s| > 1 && !IsSpace(s[1]) then [[s[0]] + rest[0]] + rest[1..]
      else [[s[0]]] + rest
  }

  /** `sep.join(ws)` for a one-character separator. */
  function Join(ws: seq<string>, sep: char): string {
    if |ws| == 0 then []
    else if |ws| == 1 then ws[0]
    else ws[0] + [sep] + Join(ws[1..], sep)
  }

  /**
   A join is the words in order with exactly one separator between each two:
   its length is theirs plus one per gap, the first word starts it and the last
   word ends it.
   */
  lemma {:induction false} JoinShape(ws: seq<string>, sep: char)
    ensures |ws| == 0 ==> Join(ws, sep) == []
    ensures |ws| > 0 ==> |Join(ws, sep)| == |Concat(ws)| + |ws| - 1
    ensures |ws| > 0 ==> |ws[0]| <= |Join(ws, sep)| && Join(ws, sep)[..|ws[0]|] == ws[0]
    ensures |ws| > 0 ==> var r := Join(ws, sep); var last := ws[|ws| - 1];
      |last| <= |r| && r[|r| - |last|..] == last
    decreases |ws|
  {
    if |ws| > 1 {
      JoinShape(ws[1..], sep);
      var tail := Join(ws[1..], sep);
      assert Join(ws, sep) == ws[0] + ([sep] + tail);
      assert ws[1..][|ws[1..]| - 1] == ws[|ws| - 1];
    } else if |ws| == 1 {
      assert Concat(ws) == ws[0] + Concat([]);
    }
  }

  /** `s.split('\n')`: one piece more than there are newlines; pieces may be empty. */
  function SplitLines(s: string): (r: seq<string>)
    ensures |r| >= 1
    ensures forall i :: 0 <= i < |r| ==> '\n' !in r[i]
    ensures Join(r, '\n') == s
    decreases |s|
  {
    if |s| == 0 then [[]]
    else
      var rest := SplitLines(s[1..]);
      if s[0] == '\n' then
        assert s == [s[0]] + s[1..];
        [[]] + rest
      else
        var r := [[s[0]] + rest[0]] + rest[1..];
        assert Join(r, '\n') == s by {
          if |rest| == 1 {
            assert s == [s[0]] + s[1..];
          } else {
            assert r[1..] == rest[1..];
            assert s == [s[0]] + s[1..];
          }
        }
        r
  }

  /** A token followed by whitespace (or nothing) splits off as one word. */
  lemma {:induction false} SplitTokenPrefix(w: string, s: string)
    requires IsToken(w)
    requires |s| == 0 || IsSpace(s[0])
    ensures Split(w + s) == [w] + Split(s)
    decreases |w|
  {
    var t := w + s;
    if |w| == 1 {
      assert t[1..] == s;
      assert [t[0]] == w;
    } else {
      var w' := w[1..];
      assert IsToken(w') by {
        forall i | 0 <= i < |w'| ensures !IsSpace(w'[i]) {
          assert w'[i] == w[i + 1];
        }
      }
      SplitTokenPrefix(w', s);
      assert t[1..] == w' + s;
      assert t[1] == w[1];
      assert [t[0]] + w' == w;
    }
  }

  lemma SplitLeadingSpace(c: char, s: string)
    requires IsSpace(c)
    ensures Split([c] + s) == Split(s)
  {
    assert ([c] + s)[1..] == s;
  }

  /** Joining tokens with single spaces and splitting again gives the tokens back. */
  lemma {:induction false} SplitJoin(ws: seq<string>)
    requires AllTokens(ws)
    ensures Split(Join(ws, ' ')) == ws
    decreases |ws|
  {
    if |ws| == 0 {
    } else if |ws| == 1 {
      SplitTokenPrefix(ws[0], []);
      assert ws[0] + [] == ws[0];
    } else {
      var tail := Join(ws[1..], ' ');
      assert AllTokens(ws[1..]) by {
        forall i | 0 <= i < |ws[1..]| ensures IsToken(ws[1..][i]) {
          assert ws[1..][i] == ws[i + 1];
        }
      }
      assert Join(ws, ' ') == ws[0] + ([' '] + tail);
      SplitTokenPrefix(ws[0], [' '] + tail);
      SplitLeadingSpace(' ', tail);
      SplitJoin(ws[1..]);
      assert [ws[0]] + ws[1..] == ws;
    }
  }

  /** Joining two non-empty lists puts exactly one separator between them. */
  lemma {:induction false} JoinAppend(a: seq<string>, b: seq<string>, sep: char)
    requires |a| > 0 && |b| > 0
    ensures Join(a + b, sep) == Join(a, sep) + [sep] + Join(b, sep)
    decreases |a|
  {
    if |a| == 1 {
      assert (a + b)[1..] == b;
    } else {
      assert (a + b)[1..] == a[1..] + b;
      JoinAppend(a[1..], b, sep);
    }
  }

  /** Splitting loses exactly the whitespace: the tokens concatenate to the non-space characters. */
  lemma {:induction false} SplitKeepsNonSpace(s: string)
    ensures Concat(Split(s)) == NonSpace(s)
    decreases |s|
  {
    if |s| == 0 {
    } else if IsSpace(s[0]) {
      SplitKeepsNonSpace(s[1..]);
    } else {
      var rest := Split(s[1..]);
      SplitKeepsNonSpace(s[1..]);
      if |s| > 1 && !IsSpace(s[1]) {
        var r := [[s[0]] + rest[0]] + rest[1..];
        assert r[1..] == rest[1..];
        assert Concat(rest) == rest[0] + Concat(rest[1..]);
      } else {
        var r := [[s[0]]] + rest;
        assert r[1..] == rest;
      }
    }
  }

  /** Splitting newline-free pieces joined by newlines gives the pieces back. */
  lemma {:induction false} SplitLinesJoin(ls: seq<string>)
    requires |ls| >= 1
    requires forall i :: 0 <= i < |ls| ==> '\n' !in ls[i]
    ensures SplitLines(Join(ls, '\n')) == ls
    decreases |ls|, |ls[0]|
  {
    var s := Join(ls, '\n');
    if |ls[0]| == 0 {
      if |ls| == 1 {
      } else {
        var tail := Join(ls[1..], '\n');
        assert s == ['\n'] + tail;
        assert s[1..] == tail;
        SplitLinesJoin(ls[1..]);
        assert [ls[0]] + ls[1..] == ls;
      }
    } else {
      var ls' := [ls[0][1..]] + ls[1..];
      assert forall i :: 0 <= i < |ls'| ==> '\n' !in ls'[i] by {
        forall i | 0 <= i < |ls'| ensures '\n' !in ls'[i] {
          if i == 0 {
            assert forall k :: 0 <= k < |ls[0][1..]| ==> ls[0][1..][k] == ls[0][k + 1];
          } else {
            assert ls'[i] == ls[i];
          }
        }
      }
      assert ls[0][0] != '\n' by { assert ls[0][0] in ls[0]; }
      if |ls| == 1 {
        assert s == [ls[0][0]] + Join(ls', '\n');
      } else {
        assert ls'[1..] == ls[1..];
        assert ls[0] == [ls[0][0]] + ls[0][1..];
        assert s == [ls[0][0]] + Join(ls', '\n');
      }
      assert s[0] == ls[0][0];
      assert s[1..] == Join(ls', '\n');
      SplitLinesJoin(ls');
      assert ls == [[ls[0][0]] + ls'[0]] + ls'[1..];
    }
  }

  /** A run of whitespace, possibly empty. */
  predicate AllSpace(g: string) {
    forall k :: 0 <= k < |g| ==> IsSpace(g[k])
  }

  /**
   `gaps` can surround `n` tokens: one gap before each token and one after the
   last, all whitespace, and every gap between two tokens non-empty.
   */
  predicate Separates(gaps: seq<string>, n: nat) {
    && |gaps| == n + 1
    && (forall i :: 0 <= i < |gaps| ==> AllSpace(gaps[i]))
    && (forall i :: 0 < i < n ==> |gaps[i]| > 0)
  }

  /** `gaps[0] + ws[0] + gaps[1] + ws[1] + ... + ws[n-1] + gaps[n]`. */
  function Weave(gaps: seq<string>, ws: seq<string>): string
    requires |gaps| == |ws| + 1
    decreases |ws|
  {
    if |ws| == 0 then gaps[0] else gaps[0] + ws[0] + Weave(gaps[1..], ws[1..])
  }

  /** The whitespace runs of `s` around its tokens, computed alongside `Split`. */
  function Gaps(s: string): (gaps: seq<string>)
    ensures |gaps| == |Split(s)| + 1
    decreases |s|
  {
    if |s| == 0 then [[]]
    else
      var g := Gaps(s[1..]);
      if IsSpace(s[0]) then [[s[0]] + g[0]] + g[1..]
      else if |s| > 1 && !IsSpace(s[1]) then g
      else [[]] + g
  }

  /** How an interleaving begins: with its first gap, or with the first token when that gap is empty. */
  lemma WeaveHead(g: seq<string>, r: seq<string>)
    requires |g| == |r| + 1
    ensures |g[0]| > 0 ==> |Weave(g, r)| > 0 && Weave(g, r)[0] == g[0][0]
    ensures |r| > 0 ==> Weave(g, r) == g[0] + r[0] + Weave(g[1..], r[1..])
    ensures |g[0]| == 0 && |r| > 0 && |r[0]| > 0 ==> |Weave(g, r)| > 0 && Weave(g, r)[0] == r[0][0]
  {
  }

  /** Widening the first gap by a whitespace character keeps the gaps separating. */
  lemma WidenFirstGap(c: char, g: seq<string>, n: nat)
    requires IsSpace(c) && Separates(g, n)
    ensures Separates([[c] + g[0]] + g[1..], n)
  {
    var gaps := [[c] + g[0]] + g[1..];
    assert AllSpace(g[0]);
    assert AllSpace(gaps[0]) by {
      forall k | 0 <= k < |gaps[0]| ensures IsSpace(gaps[0][k]) {
        if k > 0 { assert gaps[0][k] == g[0][k - 1]; }
      }
    }
    forall i | 0 < i < |gaps| ensures gaps[i] == g[i] {
    }
  }

  lemma ConsAssoc(c: char, a: string, b: string, rest: string)
    ensures [c] + a + b + rest == [c] + (a + b + rest)
  {
  }

  /** A character put in front of the first gap is the first character of the interleaving. */
  lemma WeaveWidened(c: char, g: seq<string>, r: seq<string>)
    requires |g| == |r| + 1
    ensures Weave([[c] + g[0]] + g[1..], r) == [c] + Weave(g, r)
  {
    var gaps := [[c] + g[0]] + g[1..];
    if |r| > 0 {
      assert gaps[1..] == g[1..];
      assert gaps[0] == [c] + g[0];
      ConsAssoc(c, g[0], r[0], Weave(g[1..], r[1..]));
    }
  }

  /** A whitespace character in front joins the first gap. */
  lemma WeaveSpaceStep(c: char, t: string, g: seq<string>, r: seq<string>)
    requires IsSpace(c)
    requires Separates(g, |r|) && t == Weave(g, r)
    ensures Separates([[c] + g[0]] + g[1..], |r|)
    ensures [c] + t == Weave([[c] + g[0]] + g[1..], r)
  {
    WidenFirstGap(c, g, |r|);
    WeaveWidened(c, g, r);
  }

  /** A non-space character in front of a token extends that token. */
  lemma WeaveJoinStep(c: char, t: string, g: seq<string>, r: seq<string>)
    requires |t| > 0 && !IsSpace(t[0]) && |r| > 0
    requires Separates(g, |r|) && t == Weave(g, r)
    ensures [c] + t == Weave(g, [[c] + r[0]] + r[1..])
  {
    WeaveHead(g, r);
    assert AllSpace(g[0]);
    assert |g[0]| == 0;
    var r' := [[c] + r[0]] + r[1..];
    assert r'[1..] == r[1..];
    assert t == r[0] + Weave(g[1..], r[1..]);
  }

  /** An interleaving whose first gap is whitespace, non-empty when a token follows, is empty or starts with whitespace. */
  lemma WeaveStartsWithGap(g: seq<string>, r: seq<string>)
    requires |g| == |r| + 1 && AllSpace(g[0])
    requires |r| > 0 ==> |g[0]| > 0
    ensures |Weave(g, r)| == 0 || IsSpace(Weave(g, r)[0])
  {
    WeaveHead(g, r);
  }

  /** Dropping the first gap and the first token keeps the gaps separating. */
  lemma SeparatesTail(gaps: seq<string>, n: nat)
    requires Separates(gaps, n) && n > 0
    ensures Separates(gaps[1..], n - 1)
  {
    forall i | 0 <= i < |gaps[1..]| ensures AllSpace(gaps[1..][i]) {
      assert gaps[1..][i] == gaps[i + 1];
    }
    forall i | 0 < i < n - 1 ensures |gaps[1..][i]| > 0 {
      assert gaps[1..][i] == gaps[i + 1];
    }
  }

  /** An empty gap in front keeps the gaps separating one more token, when the old first gap can follow a token. */
  lemma SeparatesPrepend(g: seq<string>, n: nat)
    requires Separates(g, n)
    requires n > 0 ==> |g[0]| > 0
    ensures Separates([[]] + g, n + 1)
  {
    var gaps := [[]] + g;
    forall i | 0 < i < |gaps| ensures gaps[i] == g[i - 1] {
    }
  }

  /** A non-space character in front of whitespace (or of nothing) is a token of its own. */
  lemma WeaveNewStep(c: char, t: string, g: seq<string>, r: seq<string>)
    requires |t| == 0 || IsSpace(t[0])
    requires AllTokens(r)
    requires Separates(g, |r|) && t == Weave(g, r)
    ensures Separates([[]] + g, |r| + 1)
    ensures [c] + t == Weave([[]] + g, [[c]] + r)
  {
    WeaveHead(g, r);
    if |r| > 0 {
      assert IsToken(r[0]);
      assert |g[0]| > 0;
    }
    SeparatesPrepend(g, |r|);
    var gaps := [[]] + g;
    var r' := [[c]] + r;
    assert gaps[1..] == g && r'[1..] == r;
  }

  /**
   `Split` cuts at every whitespace run and only there: `s` is its tokens
   interleaved with whitespace gaps, and the gaps between tokens are non-empty,
   so no token can be extended and none is split in two.
   */
  lemma {:induction false} SplitAlternates(s: string)
    ensures Separates(Gaps(s), |Split(s)|)
    ensures s == Weave(Gaps(s), Split(s))
    decreases |s|
  {
    if |s| > 0 {
      var t := s[1..];
      SplitAlternates(t);
      assert s == [s[0]] + t;
      if IsSpace(s[0]) {
        WeaveSpaceStep(s[0], t, Gaps(t), Split(t));
      } else if |s| > 1 && !IsSpace(s[1]) {
        WeaveJoinStep(s[0], t, Gaps(t), Split(t));
      } else {
        WeaveNewStep(s[0], t, Gaps(t), Split(t));
      }
    }
  }

  /** Leading whitespace does not change the tokens. */
  lemma {:induction false} SplitSpacePrefix(g: string, x: string)
    requires AllSpace(g)
    ensures Split(g + x) == Split(x)
    decreases |g|
  {
    if |g| > 0 {
      assert g + x == [g[0]] + (g[1..] + x);
      assert IsSpace(g[0]);
      assert AllSpace(g[1..]) by {
        forall k | 0 <= k < |g[1..]| ensures IsSpace(g[1..][k]) {
          assert g[1..][k] == g[k + 1];
        }
      }
      SplitLeadingSpace(g[0], g[1..] + x);
      SplitSpacePrefix(g[1..], x);
    } else {
      assert g + x == x;
    }
  }

  /**
   The converse: any interleaving of tokens with whitespace gaps, non-empty
   between tokens, splits back into exactly those tokens.
   */
  lemma {:induction false} SplitWeave(gaps: seq<string>, ws: seq<string>)
    requires AllTokens(ws)
    requires Separates(gaps, |ws|)
    ensures Split(Weave(gaps, ws)) == ws
    decreases |ws|
  {
    if |ws| == 0 {
      SplitSpacePrefix(gaps[0], []);
      assert gaps[0] + [] == gaps[0];
    } else {
      var tail := Weave(gaps[1..], ws[1..]);
      assert Weave(gaps, ws) == gaps[0] + (ws[0] + tail);
      SplitSpacePrefix(gaps[0], ws[0] + tail);
      SeparatesTail(gaps, |ws|);
      WeaveStartsWithGap(gaps[1..], ws[1..]);
      SplitTokenPrefix(ws[0], tail);
      assert AllTokens(ws[1..]) by {
        forall i | 0 <= i < |ws[1..]| ensures IsToken(ws[1..][i]) {
          assert ws[1..][i] == ws[i + 1];
        }
      }
      SplitWeave(gaps[1..], ws[1..]);
      assert [ws[0]] + ws[1..] == ws;
    }
  }
}
