/**
 Assertion normalization: lower-case, keep the maximal runs of `[a-z0-9_]`, join with spaces.

 `Lower` is exact for the characters that matter. Outside A-Z the only code points whose
 lower case contains a token character are U+0130 and U+212A; every other non-ASCII letter
 separates tokens both before and after lower-casing.
 */
module Normalization {
  import opened Lists

  function LowerChar(ch: char): string {
    if 'A' <= ch <= 'Z' then [(ch as int + 32) as char]
    else if ch == '\U{212A}' then "k"
    else if ch == '\U{0130}' then "i\U{0307}"
    else [ch]
  }

  function Lower(s: string): string {
    if s == "" then "" else LowerChar(s[0]) + Lower(s[1..])
  }

  predicate IsTokenChar(ch: char) {
    'a' <= ch <= 'z' || '0' <= ch <= '9' || ch == '_'
  }

  predicate IsToken(t: string) {
    t != "" && forall i | 0 <= i < |t| :: IsTokenChar(t[i])
  }

  /** Length of the run of token characters at the front. */
  function RunLength(s: string): (n: nat)
    ensures n <= |s| && forall i | 0 <= i < n :: IsTokenChar(s[i])
    ensures n < |s| ==> !IsTokenChar(s[n])
  {
    if s == "" || !IsTokenChar(s[0]) then 0 else 1 + RunLength(s[1..])
  }

  function Tokens(s: string): (ts: seq<string>)
    ensures forall t | t in ts :: IsToken(t)
    decreases |s|
  {
    if s == "" then []
    else if !IsTokenChar(s[0]) then Tokens(s[1..])
    else
      var n := RunLength(s);
      [s[..n]] + Tokens(s[n..])
  }

  function Normalize(s: string): string {
    Join(" ", Tokens(Lower(s)))
  }

  // ----- tokenizing undoes joining -----

  lemma {:induction false} RunStopsAtSeparator(t: string, rest: string)
    requires IsToken(t) && (rest == "" || !IsTokenChar(rest[0]))
    ensures RunLength(t + rest) == |t|
  {
    assert (t + rest)[0] == t[0] && (t + rest)[1..] == t[1..] + rest;
    if |t| > 1 {
      RunStopsAtSeparator(t[1..], rest);
    } else {
      assert t[1..] + rest == rest;
    }
  }

  lemma {:induction false} TokensUndoJoin(ts: seq<string>)
    requires forall t | t in ts :: IsToken(t)
    ensures Tokens(Join(" ", ts)) == ts
  {
    if ts != [] {
      var t, rest := ts[0], ts[1..];
      TokensUndoJoin(rest);
      var tail := if rest == [] then "" else " " + Join(" ", rest);
      assert Join(" ", ts) == t + tail;
      RunStopsAtSeparator(t, tail);
      assert (t + tail)[..|t|] == t && (t + tail)[|t|..] == tail;
      assert ts == [t] + rest;
      if rest != [] {
        assert tail[1..] == Join(" ", rest);
      }
    }
  }

  lemma {:induction false} LowerKeepsNormalText(s: string)
    requires forall i | 0 <= i < |s| :: IsTokenChar(s[i]) || s[i] == ' '
    ensures Lower(s) == s
  {
    if s != "" {
      LowerKeepsNormalText(s[1..]);
      assert LowerChar(s[0]) == [s[0]];
      assert s == [s[0]] + s[1..];
    }
  }

  lemma {:induction false} JoinedTextIsNormal(ts: seq<string>)
    requires forall t | t in ts :: IsToken(t)
    ensures forall i | 0 <= i < |Join(" ", ts)| :: IsTokenChar(Join(" ", ts)[i]) || Join(" ", ts)[i] == ' '
  {
    if ts != [] {
      assert ts[0] in ts;
      JoinedTextIsNormal(ts[1..]);
    }
  }

  lemma NormalizeIsIdempotent(s: string)
    ensures Normalize(Normalize(s)) == Normalize(s)
  {
    var ts := Tokens(Lower(s));
    JoinedTextIsNormal(ts);
    LowerKeepsNormalText(Join(" ", ts));
    TokensUndoJoin(ts);
  }

  /** Two texts normalize alike exactly when their lower-cased token lists are the same. */
  lemma NormalizeComparesTokens(a: string, b: string)
    ensures Normalize(a) == Normalize(b) <==> Tokens(Lower(a)) == Tokens(Lower(b))
  {
    TokensUndoJoin(Tokens(Lower(a)));
    TokensUndoJoin(Tokens(Lower(b)));
  }

  lemma {:induction false} LowerOfConcat(a: string, b: string)
    ensures Lower(a + b) == Lower(a) + Lower(b)
  {
    if a == "" {
      assert a + b == b;
    } else {
      hide LowerChar;
      LowerOfConcat(a[1..], b);
      assert (a + b)[0] == a[0] && (a + b)[1..] == a[1..] + b;
    }
  }

  /** Letter case never matters. */
  lemma {:induction false} LowerIsIdempotent(s: string)
    ensures Lower(Lower(s)) == Lower(s) && Normalize(Lower(s)) == Normalize(s)
  {
    if s != "" {
      LowerIsIdempotent(s[1..]);
      LowerOfConcat(LowerChar(s[0]), Lower(s[1..]));
      LowerCharIsStable(s[0]);
    }
  }

  lemma LowerCharIsStable(ch: char)
    ensures Lower(LowerChar(ch)) == LowerChar(ch)
  {
    var low := LowerChar(ch);
    assert Lower(low) == LowerChar(low[0]) + Lower(low[1..]);
    if |low| == 2 {
      assert Lower(low[1..]) == LowerChar(low[1]) + Lower(low[1..][1..]);
    }
  }

  /** Letters of either case, the dotted capital I and the Kelvin sign; every other character stays as it is. */
  lemma LowerExactly(ch: char, k: nat)
    ensures k < 26 && ch == ('A' as int + k) as char ==> LowerChar(ch) == [('a' as int + k) as char]
    ensures ch == '\U{0130}' ==> LowerChar(ch) == "i\U{0307}"
    ensures ch == '\U{212A}' ==> LowerChar(ch) == "k"
    ensures LowerChar(ch) == [ch] <==>
              !(65 <= ch as int <= 90) && ch as int != 0x130 && ch as int != 0x212A
  {
  }

  // ----- what a text keeps -----

  function Flattened(parts: seq<string>): string {
    if parts == [] then "" else parts[0] + Flattened(parts[1..])
  }

  /** A small letter, a digit or the underscore. */
  predicate IsKept(ch: char) {
    97 <= ch as int <= 122 || 48 <= ch as int <= 57 || ch as int == 95
  }

  function Kept(s: string): string {
    if s == "" then "" else (if IsKept(s[0]) then [s[0]] else []) + Kept(s[1..])
  }

  lemma {:induction false} KeptOfConcat(s: string, t: string)
    ensures Kept(s + t) == Kept(s) + Kept(t)
  {
    if s == "" {
      assert s + t == t;
    } else {
      assert (s + t)[0] == s[0] && (s + t)[1..] == s[1..] + t;
      KeptOfConcat(s[1..], t);
    }
  }

  lemma {:induction false} TokenIsKept(t: string)
    requires forall i | 0 <= i < |t| :: IsTokenChar(t[i])
    ensures Kept(t) == t
  {
    if t != "" {
      TokenIsKept(t[1..]);
    }
  }

  /** The tokens are the small letters, digits and underscores of the text, all of them in their order. */
  lemma {:induction false} TokensKeepCharacters(s: string)
    ensures Flattened(Tokens(s)) == Kept(s)
    decreases |s|
  {
    if s != "" {
      if !IsTokenChar(s[0]) {
        TokensKeepCharacters(s[1..]);
      } else {
        var n := RunLength(s);
        TokensKeepCharacters(s[n..]);
        TokenIsKept(s[..n]);
        KeptOfConcat(s[..n], s[n..]);
        assert s == s[..n] + s[n..];
        assert ([s[..n]] + Tokens(s[n..]))[1..] == Tokens(s[n..]);
      }
    }
  }

  /** Any other character separates tokens. */
  lemma {:induction false} OthersSeparate(s: string, ch: char, t: string)
    requires !IsKept(ch)
    ensures Tokens(s + [ch] + t) == Tokens(s) + Tokens(t)
    decreases |s|
  {
    var all := s + [ch] + t;
    if s == "" {
      assert all[0] == ch && all[1..] == t;
    } else if !IsTokenChar(s[0]) {
      assert all[0] == s[0] && all[1..] == s[1..] + [ch] + t;
      OthersSeparate(s[1..], ch, t);
    } else {
      RunIsLocal(s, ch, t);
      var n := RunLength(s);
      assert all[..n] == s[..n] && all[n..] == s[n..] + [ch] + t;
      OthersSeparate(s[n..], ch, t);
    }
  }

  lemma {:induction false} RunIsLocal(s: string, ch: char, t: string)
    requires !IsKept(ch)
    ensures RunLength(s + [ch] + t) == RunLength(s)
  {
    var all := s + [ch] + t;
    if s == "" {
      assert all[0] == ch;
    } else {
      assert all[0] == s[0] && all[1..] == s[1..] + [ch] + t;
      RunIsLocal(s[1..], ch, t);
    }
  }
}
