/**
 The glob patterns of Redis' KEYS and ZSCAN MATCH: `*`, `?`, character classes
 (`[a-z]`, `[^0-9]`) and backslash escapes, and the exact meaning of the patterns the
 persistence layer builds from keys, hosts and identifiers.
 */
module Glob {
  import opened Strings

  datatype Token = Star | One | Lit(c: char) | Class(negated: bool, ranges: seq<(char, char)>)

  /** The body of a class, up to and past its closing bracket; an unclosed class ends with the pattern. */
  function ClassBody(p: string): (r: (seq<(char, char)>, string))
    ensures |r.1| <= |p|
    decreases |p|
  {
    if p == [] then ([], [])
    else if |p| >= 2 && p[0] == '\\' then
      var (rs, rest) := ClassBody(p[2..]);
      ([(p[1], p[1])] + rs, rest)
    else if p[0] == ']' then ([], p[1..])
    else if |p| >= 3 && p[1] == '-' then
      var (rs, rest) := ClassBody(p[3..]);
      ([if p[0] <= p[2] then (p[0], p[2]) else (p[2], p[0])] + rs, rest)
    else
      var (rs, rest) := ClassBody(p[1..]);
      ([(p[0], p[0])] + rs, rest)
  }

  function Tokens(p: string): seq<Token>
    decreases |p|
  {
    if p == [] then []
    else if p[0] == '*' then [Star] + Tokens(p[1..])
    else if p[0] == '?' then [One] + Tokens(p[1..])
    else if p[0] == '[' then
      var negated := |p| >= 2 && p[1] == '^';
      var (rs, rest) := ClassBody(if negated then p[2..] else p[1..]);
      [Class(negated, rs)] + Tokens(rest)
    else if p[0] == '\\' && |p| >= 2 then [Lit(p[1])] + Tokens(p[2..])
    else [Lit(p[0])] + Tokens(p[1..])
  }

  predicate Accepts(t: Token, c: char)
    requires !t.Star?
  {
    match t
    case One => true
    case Lit(x) => x == c
    case Class(negated, rs) => negated != exists i :: 0 <= i < |rs| && rs[i].0 <= c <= rs[i].1
  }

  predicate Matches(ts: seq<Token>, s: string)
    decreases |ts| + |s|
  {
    if ts == [] then s == []
    else if ts[0].Star? then Matches(ts[1..], s) || (s != [] && Matches(ts, s[1..]))
    else s != [] && Accepts(ts[0], s[0]) && Matches(ts[1..], s[1..])
  }

  predicate Match(pattern: string, s: string) { Matches(Tokens(pattern), s) }

  // ---------------------------------------------------------------- literals

  predicate Plain(s: string) { '*' !in s && '?' !in s && '[' !in s && '\\' !in s }

  function Lits(s: string): (ts: seq<Token>)
    ensures |ts| == |s|
  {
    seq(|s|, i requires 0 <= i < |s| => Lit(s[i]))
  }

  lemma LitsTail(s: string)
    requires s != []
    ensures Lits(s) == [Lit(s[0])] + Lits(s[1..]) && Lits(s)[1..] == Lits(s[1..])
  {
  }

  /** A plain prefix stands for itself, whatever follows. */
  lemma {:induction false} PlainTokens(p: string, q: string)
    requires Plain(p)
    ensures Tokens(p + q) == Lits(p) + Tokens(q)
  {
    if p == [] {
      assert p + q == q;
    } else {
      assert (p + q)[1..] == p[1..] + q;
      PlainTokens(p[1..], q);
      LitsTail(p);
    }
  }

  lemma {:induction false} LitsMatch(p: string, ts: seq<Token>, s: string)
    ensures Matches(Lits(p) + ts, s) <==> p <= s && Matches(ts, s[|p|..])
    decreases |p|
  {
    if p == [] {
      assert Lits(p) + ts == ts && s[|p|..] == s;
    } else {
      LitsTail(p);
      assert (Lits(p) + ts)[1..] == Lits(p[1..]) + ts;
      if s != [] {
        LitsMatch(p[1..], ts, s[1..]);
        assert p <= s <==> p[0] == s[0] && p[1..] <= s[1..];
        if p <= s { assert s[1..][|p[1..]|..] == s[|p|..]; }
      }
    }
  }

  lemma {:induction false} StarMatchesAll(s: string)
    ensures Matches([Star], s)
  {
    if s != [] { StarMatchesAll(s[1..]); }
  }

  // ---------------------------------------------------------------- the patterns in use

  /** `*`: every string. */
  lemma AnyPattern(s: string)
    ensures Match("*", s)
  {
    assert Tokens("*") == [Star] + Tokens([]) == [Star];
    StarMatchesAll(s);
  }

  /** `*k`: the strings that end with `k`. */
  lemma SuffixPattern(k: string, s: string)
    requires Plain(k)
    ensures Match("*" + k, s) <==> HasSuffix(s, k)
  {
    PlainTokens(k, []);
    assert k + [] == k && ("*" + k)[1..] == k;
    assert Tokens("*" + k) == [Star] + Lits(k);
    StarLitsMatch(k, s);
  }

  lemma SuffixStep(s: string, k: string)
    requires s != []
    ensures HasSuffix(s, k) <==> s == k || HasSuffix(s[1..], k)
  {
    if |k| < |s| { assert s[|s| - |k|..] == s[1..][|s| - 1 - |k|..]; }
  }

  lemma {:induction false} StarLitsMatch(k: string, s: string)
    ensures Matches([Star] + Lits(k), s) <==> HasSuffix(s, k)
    decreases |s|
  {
    var ts := [Star] + Lits(k);
    assert ts[1..] == Lits(k) == Lits(k) + [];
    LitsMatch(k, [], s);
    assert k <= s && s[|k|..] == [] <==> s == k by {
      if k <= s { assert s == k + s[|k|..]; }
    }
    hide Lits;
    if s != [] {
      SuffixStep(s, k);
      hide HasSuffix;
      StarLitsMatch(k, s[1..]);
    }
  }

  /** `p*`: the strings that start with `p`. */
  lemma PrefixPattern(p: string, s: string)
    requires Plain(p)
    ensures Match(p + "*", s) <==> HasPrefix(s, p)
  {
    PlainTokens(p, "*");
    assert Tokens("*") == [Star] + Tokens([]) == [Star];
    LitsMatch(p, [Star], s);
    if p <= s { StarMatchesAll(s[|p|..]); }
  }

  predicate Digit(c: char) { '0' <= c <= '9' }

  /** `h[^0-9]*`: the strings that start with `h` and go on with something other than a digit. */
  lemma HostPattern(h: string, s: string)
    requires Plain(h)
    ensures Match(h + "[^0-9]*", s) <==> HasPrefix(s, h) && |h| < |s| && !Digit(s[|h|])
  {
    var p := "[^0-9]*";
    PlainTokens(h, p);
    var cls := Class(true, [('0', '9')]);
    assert Tokens(p) == [cls, Star] by {
      assert p[2..] == "0-9]*";
      assert "0-9]*"[3..] == "]*";
      assert "]*"[1..] == "*";
      var none: seq<(char, char)> := [];
      assert ClassBody("]*") == (none, "*");
      assert [('0', '9')] + none == [('0', '9')];
      assert ClassBody("0-9]*") == ([('0', '9')], "*");
      assert Tokens("*") == [Star];
    }
    LitsMatch(h, [cls, Star], s);
    if h <= s {
      var t := s[|h|..];
      assert [cls, Star][1..] == [Star];
      if t != [] {
        StarMatchesAll(t[1..]);
        assert cls.ranges[0] == ('0', '9');
      }
    }
  }

  // ---------------------------------------------------------------- escaping brackets

  /** The bracket escaping of `CreateEvtSubscriptionIndex`: `[` and `]` get a backslash. */
  function Escape(s: string): string {
    if s == [] then ""
    else (if s[0] == '[' || s[0] == ']' then ['\\', s[0]] else [s[0]]) + Escape(s[1..])
  }

  predicate Bracket(c: char) { c == '[' || c == ']' }

  /** No wildcard, and every backslash ends the key or stands before a closing bracket. */
  predicate Tame(k: string) {
    && '*' !in k && '?' !in k
    && forall i :: 0 <= i < |k| && k[i] == '\\' ==> i == |k| - 1 || k[i + 1] == ']'
  }

  lemma EscapeHead(w: string)
    requires w != ""
    ensures Bracket(w[0]) ==> Escape(w) == ['\\', w[0]] + Escape(w[1..]) && Escape(w)[2..] == Escape(w[1..])
    ensures !Bracket(w[0]) ==> Escape(w) == [w[0]] + Escape(w[1..]) && Escape(w)[1..] == Escape(w[1..])
  {
  }

  lemma TokensHead(p: string)
    requires p != ""
    ensures p[0] !in "*?[" && (p[0] != '\\' || |p| == 1) ==> Tokens(p) == [Lit(p[0])] + Tokens(p[1..])
    ensures p[0] == '\\' && |p| >= 2 ==> Tokens(p) == [Lit(p[1])] + Tokens(p[2..])
    ensures p[0] == '*' || p[0] == '?' ==> |Tokens(p)| == 1 + |Tokens(p[1..])|
  {
  }

  lemma OneToken(k: string)
    requires k != "" && k[0] != '*' && k[0] != '?' && (k[0] != '\\' || |k| == 1)
    ensures Tokens(Escape(k)) == [Lit(k[0])] + Tokens(Escape(k[1..]))
  {
    EscapeHead(k);
    assert |k| == 1 ==> Escape(k[1..]) == "";
    hide Tokens, Escape;
    TokensHead(Escape(k));
  }

  lemma TwoTokens(k: string)
    requires |k| >= 2 && k[0] == '\\' && k[1] == ']'
    ensures Tokens(Escape(k)) == [Lit('\\')] + ([Lit(']')] + Tokens(Escape(k[2..])))
  {
    hide Tokens, Escape;
    var e, f := Escape(k), Escape(k[2..]);
    assert k[1..][0] == ']' && k[1..][1..] == k[2..];
    EscapeHead(k);
    EscapeHead(k[1..]);
    TokensHead(e);
    var g := e[2..];
    assert g == [']'] + f;
    TokensHead(g);
    assert g[1..] == f;
  }

  /** The escaped text of a tame key: one literal for each character. */
  lemma {:induction false} TameTokens(k: string)
    requires Tame(k)
    ensures Tokens(Escape(k)) == Lits(k)
    decreases |k|
  {
    if k != [] {
      hide Tokens, Escape;
      LitsTail(k);
      TameTail(k);
      if k[0] == '\\' && |k| > 1 {
        TwoTokens(k);
        LitsTail(k[1..]);
        TameTail(k[1..]);
        assert k[1..][1..] == k[2..];
        TameTokens(k[2..]);
      } else {
        OneToken(k);
        TameTokens(k[1..]);
      }
    }
  }

  lemma TameTail(k: string)
    requires Tame(k) && k != []
    ensures Tame(k[1..])
  {
    forall i | 0 <= i < |k[1..]| && k[1..][i] == '\\' ensures i == |k[1..]| - 1 || k[1..][i + 1] == ']' {
      assert k[i + 1] == '\\';
    }
  }

  /** Fewer tokens than characters: some star was stretched, and can be stretched further. */
  lemma {:induction false} Stretch(ts: seq<Token>, s: string) returns (t: string)
    requires Matches(ts, s) && |ts| < |s|
    ensures Matches(ts, t) && t != s
    decreases |ts|
  {
    if ts[0].Star? {
      t := "!" + s;
      assert t[1..] == s;
    } else {
      var rest := Stretch(ts[1..], s[1..]);
      t := [s[0]] + rest;
      assert t[1..] == rest;
    }
  }

  // What is left of an escaped text after some tokens is again an escaped text, except that its
  // first bracket may have lost the backslash: `b + Escape(w)` with `b` such a bracket or nothing.

  predicate Loose(b: string) { b == "" || b == "[" || b == "]" }

  lemma DropOne(w: string) returns (b: string, v: string)
    requires w != ""
    ensures Loose(b) && Escape(w)[1..] == b + Escape(v) && |b| + |v| <= |w|
  {
    hide Escape;
    EscapeHead(w);
    v := w[1..];
    b := if Bracket(w[0]) then [w[0]] else "";
    assert Escape(w)[1..] == b + Escape(v);
  }

  lemma ClassHead(p: string)
    requires p != "" && p[0] != ']'
    ensures ClassBody(p).1 ==
              if |p| >= 2 && p[0] == '\\' then ClassBody(p[2..]).1
              else if |p| >= 3 && p[1] == '-' then ClassBody(p[3..]).1
              else ClassBody(p[1..]).1
  {
  }

  lemma {:induction false} ClassRest(b: string, w: string) returns (c: string, v: string)
    requires Loose(b)
    ensures Loose(c) && ClassBody(b + Escape(w)).1 == c + Escape(v) && |c| + |v| <= |b| + |w|
    ensures b + w != "" ==> |c| + |v| < |b| + |w|
    decreases |b| + |w|
  {
    var p := b + Escape(w);
    if w != "" { EscapeHead(w); }
    if p == [] {
      c, v := "", "";
      return;
    } else if p[0] == ']' {
      c, v := "", w;
      assert p[1..] == Escape(w);
      return;
    }
    hide Escape, ClassBody;
    ClassHead(p);
    if |p| >= 2 && p[0] == '\\' {
      assert b == "" && p == Escape(w);
      c, v := ClassAfterEscape(w);
    } else {
      var x := if b == "" then w[1..] else w;
      assert p[1..] == Escape(x);
      if |p| >= 3 && p[1] == '-' {
        assert p[2..] == p[1..][1..] && p[3..] == p[2..][1..];
        EscapeHead(x);
        assert p[2..] == Escape(x[1..]);
        var d, y := DropOne(x[1..]);
        c, v := ClassRest(d, y);
      } else {
        c, v := ClassRest("", x);
        assert "" + Escape(x) == p[1..];
      }
    }
  }

  /** Two characters after a backslash: an escaped bracket, or the backslash of the key. */
  lemma AfterEscape(w: string) returns (d: string, y: string)
    requires |Escape(w)| >= 2 && Escape(w)[0] == '\\'
    ensures Loose(d) && Escape(w)[2..] == d + Escape(y) && |d| + |y| < |w|
  {
    if Bracket(w[0]) {
      d, y := "", w[1..];
    } else {
      assert Escape(w)[1..] == Escape(w[1..]);
      d, y := DropOne(w[1..]);
      assert Escape(w)[2..] == Escape(w)[1..][1..];
    }
  }

  lemma {:induction false} ClassAfterEscape(w: string) returns (c: string, v: string)
    requires |Escape(w)| >= 2 && Escape(w)[0] == '\\'
    ensures Loose(c) && ClassBody(Escape(w)).1 == c + Escape(v) && |c| + |v| < |w|
    decreases |w|, 0
  {
    var d, y := AfterEscape(w);
    c, v := ClassRest(d, y);
  }

  /** A class takes at least one character of the key besides its bracket, if there is one. */
  lemma ClassSplit(w: string) returns (c: string, v: string)
    ensures Loose(c) && |c| + |v| <= |w| && (w != "" ==> |c| + |v| < |w|)
    ensures |Tokens("[" + Escape(w))| == 1 + |Tokens(c + Escape(v))|
  {
    hide ClassBody;
    var p := "[" + Escape(w);
    assert p[1..] == Escape(w) == "" + Escape(w);
    if |p| >= 2 && p[1] == '^' {
      assert p[2..] == p[1..][1..] == Escape(w[1..]) == "" + Escape(w[1..]);
      c, v := ClassRest("", w[1..]);
    } else {
      c, v := ClassRest("", w);
    }
  }

  /** There are no more tokens than characters of the key. */
  lemma {:induction false} TokensAtMost(b: string, w: string)
    requires Loose(b)
    ensures |Tokens(b + Escape(w))| <= |b| + |w|
    decreases |b| + |w|
  {
    var p := b + Escape(w);
    if w != "" { EscapeHead(w); }
    if p != [] {
      hide Escape, Tokens;
      TokensHead(p);
      if b == "[" {
        var c, v := ClassSplit(w);
        TokensAtMost(c, v);
      } else if b == "" && |p| >= 2 && p[0] == '\\' {
        assert p == Escape(w);
        var d, y := AfterEscape(w);
        TokensAtMost(d, y);
      } else {
        var x := if b == "" then w[1..] else w;
        assert p[1..] == Escape(x) == "" + Escape(x);
        TokensAtMost("", x);
      }
    }
  }

  /** An opening bracket that lost its backslash stands for at most one character, and the rest
      has fewer tokens than characters. */
  lemma ClassTokens(v: string)
    requires v != ""
    ensures |Tokens("[" + Escape(v))| <= |v|
  {
    var c, w := ClassSplit(v);
    TokensAtMost(c, w);
  }

  lemma LoneBracket(s: string)
    ensures !Matches(Tokens("[" + Escape("")), s)
  {
    var p := "[" + Escape("");
    assert p == "[" && p[1..] == "";
    assert Tokens(p) == [Class(false, [])] + Tokens("");
  }

  /** A string on which a key that is not tame and its escaped pattern disagree. */
  lemma {:induction false} NotTame(k: string) returns (s: string)
    requires !Tame(k)
    ensures Match(Escape(k), s) <==> s != k
    ensures s != "" && s != "0"
    decreases |k|
  {
    hide ClassBody;
    var e := Escape(k);
    var ts := Tokens(e);
    if !Matches(ts, k) {
      s := k;
    } else if k[0] == '*' {
      s := "!" + k;
      assert s[1..] == k;
    } else if k[0] == '?' {
      s := "!" + k[1..];
      assert e[1..] == Escape(k[1..]) && ts[1..] == Tokens(e[1..]);
      assert s[1..] == k[1..] && s[0] == '!';
    } else if k[0] == '\\' && |k| > 1 && k[1] != ']' {
      s := BadBackslash(k);
    } else {
      s := NotTameLater(k);
    }
  }

  lemma BadBackslash(k: string) returns (s: string)
    requires |k| > 1 && k[0] == '\\' && k[1] != ']' && Match(Escape(k), k)
    ensures s != k && Match(Escape(k), s) && s[..1] == "\\"
  {
    hide Tokens, Escape;
    var v := k[2..];
    var e := Escape(k);
    assert k[1..][1..] == v && k[1..][0] == k[1];
    EscapeHead(k);
    EscapeHead(k[1..]);
    TokensHead(e);
    var rest: seq<Token>;
    if k[1] == '[' {
      assert e[1] == '\\' && e[2..] == e[1..][1..] == "[" + Escape(v);
      rest := Tokens("[" + Escape(v));
      if v == "" { LoneBracket(k[1..]); } else { ClassTokens(v); }
    } else {
      assert e[1] == k[1] && e[2..] == e[1..][1..] == Escape(v) == "" + Escape(v);
      rest := Tokens(Escape(v));
      TokensAtMost("", v);
    }
    assert Tokens(e)[1..] == rest;
    var t := Stretch(rest, k[1..]);
    s := [k[0]] + t;
    assert s[1..] == t;
  }

  /** The first characters of the key are in order; the disagreement lies behind them. */
  lemma {:induction false} NotTameLater(k: string) returns (s: string)
    requires !Tame(k) && k != "" && k[0] != '*' && k[0] != '?'
    requires k[0] == '\\' && |k| > 1 ==> k[1] == ']'
    ensures Match(Escape(k), s) <==> s != k
    ensures |s| >= 2
    decreases |k|, 0
  {
    var n := if k[0] == '\\' && |k| > 1 then 2 else 1;
    TameCons(k);
    if n == 2 {
      assert k[1..][0] == ']' && k[1..][1..] == k[2..];
      TameCons(k[1..]);
    }
    hide Tame, Escape, Match;
    var t := NotTame(k[n..]);
    s := k[..n] + t;
    PrefixTokens(k, n, t);
    assert k == k[..n] + k[n..];
  }

  lemma TameCons(k: string)
    requires k != "" && k[0] != '*' && k[0] != '?' && (k[0] == '\\' && |k| > 1 ==> k[1] == ']')
    ensures Tame(k[1..]) ==> Tame(k)
  {
    forall i | 0 < i < |k| ensures k[i] == k[1..][i - 1] {
    }
    if Tame(k[1..]) {
      forall i | 0 <= i < |k| && k[i] == '\\' ensures i == |k| - 1 || k[i + 1] == ']' {
        if i > 0 { assert k[1..][i - 1] == '\\'; }
      }
    }
  }

  lemma PrefixTokens(k: string, n: nat, t: string)
    requires 1 <= n <= 2 && n <= |k| && k[0] != '*' && k[0] != '?'
    requires if n == 1 then k[0] != '\\' || |k| == 1 else k[0] == '\\' && k[1] == ']'
    ensures Match(Escape(k), k[..n] + t) <==> Match(Escape(k[n..]), t)
  {
    hide Tokens, Escape, Matches;
    var rest := Tokens(Escape(k[n..]));
    if n == 1 {
      OneToken(k);
      assert k[..1] + t == [k[0]] + t;
      LitMatch(k[0], rest, t);
    } else {
      TwoTokens(k);
      assert k[..2] + t == ['\\'] + ([']'] + t);
      LitMatch('\\', [Lit(']')] + rest, [']'] + t);
      LitMatch(']', rest, t);
    }
  }

  lemma LitMatch(c: char, ts: seq<Token>, s: string)
    ensures Matches([Lit(c)] + ts, [c] + s) <==> Matches(ts, s)
  {
    assert ([Lit(c)] + ts)[1..] == ts && ([c] + s)[1..] == s;
  }

  /** Escaping the brackets makes the pattern of a key exact if and only if the key holds no
      wildcard and no backslash but at its end or before a closing bracket. */
  lemma EscapeExact(k: string)
    ensures (forall s :: Match(Escape(k), s) <==> s == k) <==> Tame(k)
  {
    if Tame(k) {
      TameTokens(k);
      forall s ensures Match(Escape(k), s) <==> s == k {
        assert Lits(k) + [] == Lits(k);
        LitsMatch(k, [], s);
        if k <= s && s[|k|..] == [] { assert s == k + s[|k|..]; }
      }
    } else {
      var s := NotTame(k);
      assert Match(Escape(k), s) <==> s != k;
    }
  }

  /** An escaped key that starts with a plain `p` matches only strings that start with `p`. */
  lemma EscapeKeepsPrefix(p: string, rest: string, s: string)
    requires Plain(p) && ']' !in p && Match(Escape(p + rest), s)
    ensures p <= s
  {
    EscapePlain(p, rest);
    PlainTokens(p, Escape(rest));
    LitsMatch(p, Tokens(Escape(rest)), s);
  }

  lemma {:induction false} EscapePlain(p: string, rest: string)
    requires Plain(p) && ']' !in p
    ensures Escape(p + rest) == p + Escape(rest)
  {
    if p == [] {
      assert p + rest == rest;
    } else {
      assert (p + rest)[1..] == p[1..] + rest;
      EscapePlain(p[1..], rest);
    }
  }
}
