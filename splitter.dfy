/** The two parenthesis-aware splitters REG_SPLIT_COMMA_BRACE and
    REG_SPLIT_EQUAL_BRACE, written as a scanner that reproduces what
    re.findall does with the pattern ((:?[^d(]+(?:\(.*?\))?))(?:d|$) for the
    delimiter d.  The leading ":?" can only match a character that [^d(]+
    would take anyway, so it never changes a match.

    At a position p the pattern matches when a non-empty run of characters
    other than d and '(' starts there and is followed by d, by the end of the
    input, or by '(' and a ')' that is itself followed by d or the end; the
    lazy ".*?" takes the first such ')' and cannot cross a newline.  As in
    Python, "$" also matches just before a final newline.  Where no match
    starts at p, findall moves on to p + 1, dropping that character. */
module Splitter {
  import opened Base
  import PyStr

  /** The two delimiters the source splits on. */
  predicate Delimiter(d: char)
  {
    d == ',' || d == '='
  }

  /** Where "$" matches: the end of the input, or just before a final newline. */
  predicate AtEnd(s: string, i: nat)
  {
    i == |s| || (i + 1 == |s| && s[i] == '\n')
  }

  /** What "(?:d|$)" accepts at index i. */
  predicate EndsToken(s: string, d: char, i: nat)
  {
    AtEnd(s, i) || (i < |s| && s[i] == d)
  }

  /** The end of the greedy run [^d(]+ that starts at p. */
  function HeadEnd(s: string, d: char, p: nat): (e: nat)
    requires p <= |s|
    ensures p <= e <= |s|
    ensures forall k :: p <= k < e ==> s[k] != d && s[k] != '('
    ensures e < |s| ==> s[e] == d || s[e] == '('
    decreases |s| - p
  {
    if p == |s| || s[p] == d || s[p] == '(' then p else HeadEnd(s, d, p + 1)
  }

  /** A ')' at index k that "(?:d|$)" accepts right after. */
  predicate ClosesToken(s: string, d: char, k: nat)
    requires k < |s|
  {
    s[k] == ')' && EndsToken(s, d, k + 1)
  }

  /** The lazy search of "\(.*?\)" followed by "(?:d|$)", from index r on:
      the first ')' that ends a token, unless a newline comes first. */
  function CloseAt(s: string, d: char, r: nat): (o: Option<nat>)
    requires r <= |s|
    ensures o.Some? ==> r <= o.value < |s| && ClosesToken(s, d, o.value)
    ensures o.Some? ==> forall k :: r <= k < o.value ==> s[k] != '\n'
    ensures o.Some? ==> forall k :: r <= k < o.value ==> !ClosesToken(s, d, k)
    decreases |s| - r
  {
    if r == |s| then None
    else if ClosesToken(s, d, r) then Some(r)
    else if s[r] == '\n' then None
    else CloseAt(s, d, r + 1)
  }

  /** A match found at p: the token is s[p..stop], and scanning resumes at
      next (past the delimiter when one was consumed). */
  datatype Match = Match(stop: nat, next: nat)

  /** The index of the first '(' in t, or |t| when there is none. */
  function ParenStart(t: string): (i: nat)
    ensures i <= |t|
    ensures forall k :: 0 <= k < i ==> t[k] != '('
    ensures i < |t| ==> t[i] == '('
    decreases |t|
  {
    if |t| == 0 then 0
    else if t[0] == '(' then 0
    else 1 + ParenStart(t[1..])
  }

  /** A ')' at index k of q directly followed by d. */
  predicate CloseThenDelim(q: string, d: char, k: nat)
    requires k + 1 < |q|
  {
    q[k] == ')' && q[k + 1] == d
  }

  /** The parenthesised part of a token: it opens with '(' and closes with
      ')', holds no newline, and no ')' inside it is followed by d (the lazy
      match would have stopped there). */
  predicate IsParenTail(q: string, d: char)
  {
    && |q| >= 2 && q[0] == '(' && q[|q| - 1] == ')'
    && (forall k :: 0 <= k < |q| ==> q[k] != '\n')
    && (forall k :: 0 <= k < |q| - 1 ==> !CloseThenDelim(q, d, k))
  }

  /** The shape of every token the splitter yields: a non-empty head free of
      d and '(', optionally followed by one parenthesised span, inside which
      d may occur freely. */
  predicate IsToken(t: string, d: char)
  {
    var i := ParenStart(t);
    && 0 < i
    && (forall k :: 0 <= k < i ==> t[k] != d)
    && (i < |t| ==> IsParenTail(t[i..], d))
  }

  lemma {:induction false} ParenStartIs(t: string, i: nat)
    requires i <= |t|
    requires forall k :: 0 <= k < i ==> t[k] != '('
    requires i < |t| ==> t[i] == '('
    ensures ParenStart(t) == i
    decreases |t|
  {
    if |t| > 0 && t[0] != '(' {
      ParenStartIs(t[1..], i - 1);
    }
  }

  /** One step of findall: the match that starts at the front of s, if any
      (findall restarted on the rest of the input sees the same matches, as
      the pattern only looks forward and "$" is anchored at the end). */
  function MatchAt(s: string, d: char): (m: Option<Match>)
    requires Delimiter(d)
    requires 0 < |s|
    ensures m.Some? ==> 0 < m.value.stop <= m.value.next <= |s|
    ensures m.Some? ==> IsToken(s[..m.value.stop], d)
  {
    var e := HeadEnd(s, d, 0);
    if e == 0 then None
    else if e == |s| then
      TokenOfHead(s, d, e);
      Some(Match(e, e))
    else if s[e] == d then
      TokenOfHead(s, d, e);
      Some(Match(e, e + 1))
    else match CloseAt(s, d, e + 1)
      case None => None
      case Some(r) =>
        TokenOfParen(s, d, e, r);
        Some(Match(r + 1, if r + 1 < |s| && s[r + 1] == d then r + 2 else r + 1))
  }

  lemma TokenOfHead(s: string, d: char, e: nat)
    requires 0 < e <= |s|
    requires forall k :: 0 <= k < e ==> s[k] != d && s[k] != '('
    ensures IsToken(s[..e], d)
  {
    ParenStartIs(s[..e], e);
  }

  lemma TokenOfParen(s: string, d: char, e: nat, r: nat)
    requires Delimiter(d)
    requires 0 < e < r < |s|
    requires forall k :: 0 <= k < e ==> s[k] != d && s[k] != '('
    requires s[e] == '(' && s[r] == ')'
    requires forall k :: e + 1 <= k < r ==> s[k] != '\n'
    requires forall k :: e + 1 <= k < r ==> !ClosesToken(s, d, k)
    ensures IsToken(s[..r + 1], d)
  {
    var t := s[..r + 1];
    ParenStartIs(t, e);
    var q := t[e..];
    assert q == s[e..r + 1];
    forall k | 0 <= k < |q| ensures q[k] != '\n' {
      assert q[k] == s[e + k];
    }
    forall k | 0 <= k < |q| - 1 ensures !CloseThenDelim(q, d, k) {
      assert q[k] == s[e + k] && q[k + 1] == s[e + k + 1];
      if k > 0 && CloseThenDelim(q, d, k) {
        assert ClosesToken(s, d, e + k);
      }
    }
  }

  /** [x[1] for x in REG.findall(s)] for the splitter on d.  Every token it
      yields has the token shape (so it is non-empty and a d in it sits inside
      its parenthesised span). */
  function Split(s: string, d: char): (r: seq<string>)
    requires Delimiter(d)
    ensures forall i :: 0 <= i < |r| ==> IsToken(r[i], d) && |r[i]| > 0
    decreases |s|
  {
    if |s| == 0 then []
    else match MatchAt(s, d)
      case None => Split(s[1..], d)
      case Some(m) => [s[..m.stop]] + Split(s[m.next..], d)
  }

  predicate AllTokens(ts: seq<string>, d: char)
  {
    forall i :: 0 <= i < |ts| ==> IsToken(ts[i], d)
  }

  lemma HeadEndIs(s: string, d: char, p: nat, e: nat)
    requires p <= e <= |s|
    requires forall k :: p <= k < e ==> s[k] != d && s[k] != '('
    requires e < |s| ==> s[e] == d || s[e] == '('
    ensures HeadEnd(s, d, p) == e
    decreases e - p
  {
    if p < e { HeadEndIs(s, d, p + 1, e); }
  }

  lemma CloseAtIs(s: string, d: char, r: nat, c: nat)
    requires r <= c < |s|
    requires ClosesToken(s, d, c)
    requires forall k :: r <= k < c ==> s[k] != '\n'
    requires forall k :: r <= k < c ==> !ClosesToken(s, d, k)
    ensures CloseAt(s, d, r) == Some(c)
    decreases c - r
  {
    if r < c { CloseAtIs(s, d, r + 1, c); }
  }

  /** A token followed by d (when more follows) or by the end is exactly what
      the scanner matches. */
  lemma MatchAtToken(s: string, d: char, t: string, rest: string)
    requires Delimiter(d)
    requires IsToken(t, d)
    requires s == t + rest
    requires rest == [] || rest[0] == d
    ensures MatchAt(s, d) == Some(Match(|t|, if rest == [] then |t| else |t| + 1))
  {
    HeadOfToken(s, d, t, rest);
    if ParenStart(t) == |t| {
      MatchAtHead(s, d, |t|, rest);
    } else {
      CloseOfToken(s, d, t, rest);
      assert s[ParenStart(t)] == t[ParenStart(t)];
      MatchAtParen(s, d, ParenStart(t), |t| - 1, rest);
    }
  }

  lemma MatchAtHead(s: string, d: char, e: nat, rest: string)
    requires Delimiter(d)
    requires 0 < e <= |s| && HeadEnd(s, d, 0) == e
    requires s[e..] == rest && (rest == [] || rest[0] == d)
    ensures MatchAt(s, d) == Some(Match(e, if rest == [] then e else e + 1))
  {
    if rest != [] {
      assert s[e] == rest[0];
    }
  }

  lemma MatchAtParen(s: string, d: char, e: nat, c: nat, rest: string)
    requires Delimiter(d)
    requires 0 < e < c < |s| && s[e] == '(' && HeadEnd(s, d, 0) == e && CloseAt(s, d, e + 1) == Some(c)
    requires s[c + 1..] == rest && (rest == [] || rest[0] == d)
    ensures MatchAt(s, d) == Some(Match(c + 1, if rest == [] then c + 1 else c + 2))
  {
    if rest != [] {
      assert s[c + 1] == rest[0];
    }
  }

  /** The head of a token leading s is the greedy run at the front of s. */
  lemma HeadOfToken(s: string, d: char, t: string, rest: string)
    requires IsToken(t, d)
    requires s == t + rest
    requires rest == [] || rest[0] == d
    ensures HeadEnd(s, d, 0) == ParenStart(t)
  {
    var i := ParenStart(t);
    forall k | 0 <= k < i ensures s[k] != d && s[k] != '(' {
      assert s[k] == t[k];
    }
    if i < |t| {
      assert s[i] == t[i];
    }
    HeadEndIs(s, d, 0, i);
  }

  /** The lazy search from the '(' of a token leading s stops at the
      token's last ')'. */
  lemma CloseOfToken(s: string, d: char, t: string, rest: string)
    requires Delimiter(d)
    requires IsToken(t, d) && ParenStart(t) < |t|
    requires s == t + rest
    requires rest == [] || rest[0] == d
    ensures CloseAt(s, d, ParenStart(t) + 1) == Some(|t| - 1)
  {
    var i := ParenStart(t);
    var q := t[i..];
    var c := |t| - 1;
    assert s[c] == t[c] == q[|q| - 1];
    forall k | i + 1 <= k < c ensures s[k] != '\n' {
      assert s[k] == t[k] == q[k - i];
    }
    forall k | i + 1 <= k < c ensures !ClosesToken(s, d, k) {
      assert s[k] == q[k - i] && s[k + 1] == q[k + 1 - i];
      assert !CloseThenDelim(q, d, k - i);
    }
    CloseAtIs(s, d, i + 1, c);
  }

  /** Round trip, decoding direction: splitting the join of any tokens gives
      the tokens back; in particular a delimiter inside a parenthesised span
      never splits. */
  lemma {:induction false} SplitJoin(ts: seq<string>, d: char)
    requires Delimiter(d)
    requires AllTokens(ts, d)
    ensures Split(PyStr.Join(ts, d), d) == ts
    decreases |ts|
  {
    if |ts| == 1 {
      SplitLast(ts[0], d);
    } else if |ts| > 1 {
      assert AllTokens(ts[1..], d) by {
        forall i | 0 <= i < |ts[1..]| ensures IsToken(ts[1..][i], d) {
          assert ts[1..][i] == ts[i + 1];
        }
      }
      SplitStep(ts[0], PyStr.Join(ts[1..], d), d);
      SplitJoin(ts[1..], d);
      assert ts == [ts[0]] + ts[1..];
    }
  }

  /** A lone token splits into itself. */
  lemma SplitLast(t: string, d: char)
    requires Delimiter(d) && IsToken(t, d)
    ensures Split(t, d) == [t]
  {
    MatchAtToken(t, d, t, []);
    assert t[..|t|] == t;
    assert t[|t|..] == [];
  }

  /** A token, d, and anything after: the token, then the split of the
      rest. */
  lemma SplitStep(t: string, rest: string, d: char)
    requires Delimiter(d) && IsToken(t, d)
    ensures Split(t + [d] + rest, d) == [t] + Split(rest, d)
  {
    var s := t + [d] + rest;
    assert s == t + ([d] + rest);
    MatchAtToken(s, d, t, [d] + rest);
    assert s[..|t|] == t;
    assert s[|t| + 1..] == rest;
  }

  /** A non-empty run free of the delimiter and of '(' is a token. */
  lemma PlainToken(t: string, d: char)
    requires |t| > 0 && d !in t && '(' !in t
    ensures IsToken(t, d)
  {
    forall k | 0 <= k < |t| ensures t[k] != '(' && t[k] != d {
      assert t[k] in t;
    }
    ParenStartIs(t, |t|);
  }

  /** A trailing delimiter ends the last token and adds no empty one, so
      "key=" splits on '=' into ["key"] alone. */
  lemma SplitTrailingDelimiter(t: string, d: char)
    requires Delimiter(d)
    requires IsToken(t, d)
    ensures Split(t + [d], d) == [t]
  {
    var s := t + [d];
    MatchAtToken(s, d, t, [d]);
    assert s[..|t|] == t;
    assert s[|t| + 1..] == [];
  }

  /** The strings the splitters reproduce exactly. */
  ghost predicate Splittable(s: string, d: char)
  {
    exists ts :: AllTokens(ts, d) && PyStr.Join(ts, d) == s
  }

  /** Round trip, encoding direction: re-joining the tokens with the
      delimiter reproduces the input exactly when the input is a join of
      tokens, and only then. */
  lemma JoinSplitIff(s: string, d: char)
    requires Delimiter(d)
    ensures PyStr.Join(Split(s, d), d) == s <==> Splittable(s, d)
  {
    if Splittable(s, d) {
      var ts :| AllTokens(ts, d) && PyStr.Join(ts, d) == s;
      SplitJoin(ts, d);
    }
    if PyStr.Join(Split(s, d), d) == s {
      assert AllTokens(Split(s, d), d);
    }
  }

  /** A delimiter between parentheses is not a split point: a head followed
      by one parenthesised span stays one token, whatever delimiters the
      span holds. */
  lemma ParenSpanStaysWhole(h: string, x: string, d: char)
    requires Delimiter(d)
    requires |h| > 0 && d !in h && '(' !in h
    requires ')' !in x && '\n' !in x
    ensures Split(h + "(" + x + ")", d) == [h + "(" + x + ")"]
  {
    ParenToken(h, x, d);
    SplitLast(h + "(" + x + ")", d);
  }

  lemma ParenToken(h: string, x: string, d: char)
    requires Delimiter(d)
    requires |h| > 0 && d !in h && '(' !in h
    requires ')' !in x && '\n' !in x
    ensures IsToken(h + "(" + x + ")", d)
  {
    var t := h + "(" + x + ")";
    forall k | 0 <= k < |h| ensures t[k] == h[k] && t[k] != '(' && t[k] != d {
      assert h[k] in h;
    }
    ParenStartIs(t, |h|);
    var q := t[|h|..];
    assert q == "(" + x + ")";
    ParenTail(x, d);
  }

  lemma ParenTail(x: string, d: char)
    requires Delimiter(d)
    requires ')' !in x && '\n' !in x
    ensures IsParenTail("(" + x + ")", d)
  {
    var q := "(" + x + ")";
    forall k | 0 <= k < |q| - 1 ensures !CloseThenDelim(q, d, k) {
      if k > 0 { assert q[k] == x[k - 1]; assert x[k - 1] in x; }
    }
    forall k | 0 <= k < |q| ensures q[k] != '\n' {
      if 0 < k < |q| - 1 { assert q[k] == x[k - 1]; assert x[k - 1] in x; }
    }
  }
}
