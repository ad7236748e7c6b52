/** Sizzle's tokenize and toSelector (src/main/webapp/javascript/jquery-1.10.2.js). */
module Tokenizer {
  import Basics

  /** kind 0 is a combinator, kind k > 0 the k-th entry of Expr.filter. */
  datatype Token = Token(value: string, kind: nat)

  /** The regular expressions with their pre-filters: each tells how many characters it takes from
      the front of its input, zero for no match. */
  datatype Lexer = Lexer(comma: string -> nat, combinator: string -> nat, filters: seq<string -> nat>)

  /** The length of a match, which is a prefix of the input. */
  function Take(f: string -> nat, s: string): (n: nat)
    ensures n <= |s|
  {
    if f(s) <= |s| then f(s) else |s|
  }

  // ----- the simple form -----

  /** Tokens that the filters from the k-th on find one after the other, and what they leave. */
  function Filters(lx: Lexer, k: nat, s: string): (r: (seq<Token>, string))
    requires k <= |lx.filters|
    ensures |r.1| <= |s| && if r.0 == [] then r.1 == s else |r.1| < |s|
    decreases |lx.filters| - k
  {
    if k == |lx.filters| then ([], s)
    else
      var n := Take(lx.filters[k], s);
      if n == 0 then Filters(lx, k + 1, s)
      else
        var (ts, rest) := Filters(lx, k + 1, s[n..]);
        ([Token(s[..n], k + 1)] + ts, rest)
  }

  /** One round: a combinator, then the filters. */
  function Round(lx: Lexer, s: string): (r: (seq<Token>, string))
    ensures |r.1| <= |s| && if r.0 == [] then r.1 == s else |r.1| < |s|
  {
    var n := Take(lx.combinator, s);
    if n == 0 then Filters(lx, 0, s)
    else
      var (ts, rest) := Filters(lx, 0, s[n..]);
      ([Token(s[..n], 0)] + ts, rest)
  }

  /** A group with the comma text that was consumed before it. */
  datatype Group = Group(lead: string, tokens: seq<Token>)

  /** The comma text consumed at s: a comma that ends the input is left standing. */
  function CommaAt(lx: Lexer, s: string): nat {
    var n := Take(lx.comma, s);
    if n == |s| then 0 else n
  }

  /** Whether a comma is seen at s, consumed or not. */
  predicate SeesComma(lx: Lexer, s: string) { Take(lx.comma, s) > 0 }

  /** The tokens of the group begun at s, then the groups after it, and the invalid rest. */
  function Scan(lx: Lexer, s: string): (r: (seq<Token>, seq<Group>, string))
    decreases |s|
  {
    var (ts, rest) := Round(lx, s);
    if ts == [] then ([], [], rest)
    else if rest == "" then (ts, [], "")
    else if SeesComma(lx, rest) then
      var n := CommaAt(lx, rest);
      var (us, gs, end) := Scan(lx, rest[n..]);
      (ts, [Group(rest[..n], us)] + gs, end)
    else
      var (us, gs, end) := Scan(lx, rest);
      (ts + us, gs, end)
  }

  /** All groups of a selector, and the invalid rest. */
  function Tokenization(lx: Lexer, selector: string): (seq<Group>, string) {
    if selector == "" then ([], "")
    else
      var (ts, gs, rest) := Scan(lx, selector);
      ([Group("", ts)] + gs, rest)
  }

  /** toSelector */
  function Text(ts: seq<Token>): string {
    if ts == [] then "" else Text(ts[..|ts| - 1]) + ts[|ts| - 1].value
  }

  function Piece(g: Group): string { g.lead + Text(g.tokens) }

  function Join(ss: seq<string>): string {
    if ss == [] then "" else Join(ss[..|ss| - 1]) + ss[|ss| - 1]
  }

  function Pieces(gs: seq<Group>): seq<string> { seq(|gs|, i requires 0 <= i < |gs| => Piece(gs[i])) }

  /** What the groups and the commas consumed before them take of the selector. */
  function Source(gs: seq<Group>): string { Join(Pieces(gs)) }

  lemma {:induction false} TextConcat(xs: seq<Token>, ys: seq<Token>)
    ensures Text(xs + ys) == Text(xs) + Text(ys)
  {
    if ys == [] {
      assert xs + ys == xs;
    } else {
      TextConcat(xs, ys[..|ys| - 1]);
      assert (xs + ys)[..|xs + ys| - 1] == xs + ys[..|ys| - 1];
      Basics.Regroup(Text(xs), Text(ys[..|ys| - 1]), ys[|ys| - 1].value);
    }
  }

  lemma TextCons(t: Token, ts: seq<Token>)
    ensures Text([t] + ts) == t.value + Text(ts)
  {
    assert [t][..0] == [];
    TextConcat([t], ts);
  }

  lemma {:induction false} JoinConcat(xs: seq<string>, ys: seq<string>)
    ensures Join(xs + ys) == Join(xs) + Join(ys)
  {
    if ys == [] {
      assert xs + ys == xs;
    } else {
      JoinConcat(xs, ys[..|ys| - 1]);
      assert (xs + ys)[..|xs + ys| - 1] == xs + ys[..|ys| - 1];
      Basics.Regroup(Join(xs), Join(ys[..|ys| - 1]), ys[|ys| - 1]);
    }
  }

  lemma JoinOne(s: string)
    ensures Join([s]) == s
  {
    assert [s][..0] == [];
  }

  lemma SourceConcat(xs: seq<Group>, ys: seq<Group>)
    ensures Source(xs + ys) == Source(xs) + Source(ys)
  {
    assert Pieces(xs + ys) == Pieces(xs) + Pieces(ys);
    JoinConcat(Pieces(xs), Pieces(ys));
  }

  lemma SourceCons(g: Group, gs: seq<Group>)
    ensures Source([g] + gs) == Piece(g) + Source(gs)
  {
    SourceConcat([g], gs);
    assert Pieces([g]) == [Piece(g)];
    JoinOne(Piece(g));
  }

  lemma {:induction false} FiltersLossless(lx: Lexer, k: nat, s: string)
    requires k <= |lx.filters|
    ensures var (ts, rest) := Filters(lx, k, s); Text(ts) + rest == s
    decreases |lx.filters| - k
  {
    if k < |lx.filters| {
      var n := Take(lx.filters[k], s);
      if n == 0 {
        FiltersLossless(lx, k + 1, s);
      } else {
        FiltersLossless(lx, k + 1, s[n..]);
        var (ts, rest) := Filters(lx, k + 1, s[n..]);
        TextCons(Token(s[..n], k + 1), ts);
        Regroup("", s[..n], Text(ts), "", rest);
      }
    }
  }

  lemma RoundLossless(lx: Lexer, s: string)
    ensures var (ts, rest) := Round(lx, s); Text(ts) + rest == s
  {
    var n := Take(lx.combinator, s);
    if n == 0 {
      FiltersLossless(lx, 0, s);
    } else {
      FiltersLossless(lx, 0, s[n..]);
      var (ts, rest) := Filters(lx, 0, s[n..]);
      TextCons(Token(s[..n], 0), ts);
      Regroup("", s[..n], Text(ts), "", rest);
    }
  }

  lemma Regroup(a: string, b: string, c: string, d: string, e: string)
    ensures a + ((b + c) + d) + e == a + (b + (c + d + e))
    ensures (a + c) + d + e == a + (c + d + e)
    ensures (b + c) + e == b + (c + e)
  {
  }

  lemma CommaCase(ts: seq<Token>, rest: string, n: nat, us: seq<Token>, gs: seq<Group>, end: string)
    requires n <= |rest| && Text(us) + Source(gs) + end == rest[n..]
    ensures Text(ts) + Source([Group(rest[..n], us)] + gs) + end == Text(ts) + rest
  {
    SourceCons(Group(rest[..n], us), gs);
    Regroup(Text(ts), rest[..n], Text(us), Source(gs), end);
    assert rest[..n] + rest[n..] == rest;
  }

  lemma PlainCase(ts: seq<Token>, rest: string, us: seq<Token>, gs: seq<Group>, end: string)
    requires Text(us) + Source(gs) + end == rest
    ensures Text(ts + us) + Source(gs) + end == Text(ts) + rest
  {
    TextConcat(ts, us);
    Regroup(Text(ts), "", Text(us), Source(gs), end);
  }

  /** Nothing is lost: tokens, comma texts and the rest, in order, are the input. */
  lemma {:induction false} ScanLossless(lx: Lexer, s: string)
    ensures var (ts, gs, rest) := Scan(lx, s); Text(ts) + Source(gs) + rest == s
    decreases |s|
  {
    RoundLossless(lx, s);
    var (ts, rest) := Round(lx, s);
    if ts != [] && rest != "" {
      if SeesComma(lx, rest) {
        var n := CommaAt(lx, rest);
        ScanLossless(lx, rest[n..]);
        var (us, gs, end) := Scan(lx, rest[n..]);
        CommaCase(ts, rest, n, us, gs, end);
      } else {
        ScanLossless(lx, rest);
        var (us, gs, end) := Scan(lx, rest);
        PlainCase(ts, rest, us, gs, end);
      }
    }
  }

  lemma Lossless(lx: Lexer, selector: string)
    ensures var (gs, rest) := Tokenization(lx, selector); Source(gs) + rest == selector
  {
    if selector != "" {
      ScanLossless(lx, selector);
      var (ts, gs, rest) := Scan(lx, selector);
      SourceCons(Group("", ts), gs);
      assert Piece(Group("", ts)) == Text(ts);
    }
  }

  /** On success the text of each group stands in the selector right after the groups before it
      and its own comma. */
  lemma GroupInSource(lx: Lexer, selector: string, k: nat)
    requires Tokenization(lx, selector).1 == "" && k < |Tokenization(lx, selector).0|
    ensures var gs := Tokenization(lx, selector).0;
      var from, text := |Source(gs[..k])| + |gs[k].lead|, Text(gs[k].tokens);
      from + |text| <= |selector| && selector[from..from + |text|] == text
  {
    var gs := Tokenization(lx, selector).0;
    Lossless(lx, selector);
    assert Source(gs) + "" == Source(gs);
    Split(gs, k);
    InMiddle(Source(gs[..k]), gs[k].lead, Text(gs[k].tokens), Source(gs[k + 1..]));
  }

  lemma Split(gs: seq<Group>, k: nat)
    requires k < |gs|
    ensures Source(gs) == Source(gs[..k]) + (Piece(gs[k]) + Source(gs[k + 1..]))
  {
    var after := gs[k + 1..];
    SourceCons(gs[k], after);
    SourceConcat(gs[..k], [gs[k]] + after);
    assert gs[..k] + ([gs[k]] + after) == gs;
  }

  lemma InMiddle(a: string, b: string, c: string, d: string)
    ensures var s := a + ((b + c) + d); s[|a| + |b|..|a| + |b| + |c|] == c
  {
  }

  // ----- where tokens and commas are seen -----

  /** t is what its own part of the lexer finds at the front of s: the combinator expression, or the
      filter of its number. */
  ghost predicate TokenAt(lx: Lexer, t: Token, s: string) {
    && t.kind <= |lx.filters| && t.value != "" && t.value <= s
    && |t.value| == Take(if t.kind == 0 then lx.combinator else lx.filters[t.kind - 1], s)
  }

  /** In the tokens of one round a combinator comes first and the filters in their order, each found
      where the one before ends. */
  ghost predicate TokensAt(lx: Lexer, ts: seq<Token>, least: nat, s: string)
    decreases |ts|
  {
    ts == [] || (least <= ts[0].kind && TokenAt(lx, ts[0], s) && TokensAt(lx, ts[1..], ts[0].kind + 1, s[|ts[0].value|..]))
  }

  lemma {:induction false} FiltersSee(lx: Lexer, k: nat, s: string)
    requires k <= |lx.filters|
    ensures TokensAt(lx, Filters(lx, k, s).0, k + 1, s)
    decreases |lx.filters| - k
  {
    if k < |lx.filters| {
      var n := Take(lx.filters[k], s);
      if n == 0 {
        FiltersSee(lx, k + 1, s);
        TokensAtLess(lx, Filters(lx, k + 1, s).0, k + 2, k + 1, s);
      } else {
        FiltersSee(lx, k + 1, s[n..]);
        TokensAtFirst(lx, Token(s[..n], k + 1), Filters(lx, k + 1, s[n..]).0, s);
      }
    }
  }

  lemma TokensAtLess(lx: Lexer, ts: seq<Token>, least: nat, less: nat, s: string)
    requires TokensAt(lx, ts, least, s) && less <= least
    ensures TokensAt(lx, ts, less, s)
  {
  }

  lemma TokensAtFirst(lx: Lexer, t: Token, ts: seq<Token>, s: string)
    requires TokenAt(lx, t, s) && TokensAt(lx, ts, t.kind + 1, s[|t.value|..])
    ensures TokensAt(lx, [t] + ts, t.kind, s)
  {
    assert ([t] + ts)[1..] == ts;
  }

  lemma RoundSees(lx: Lexer, s: string)
    ensures TokensAt(lx, Round(lx, s).0, 0, s)
  {
    var n := Take(lx.combinator, s);
    if n == 0 {
      FiltersSee(lx, 0, s);
      TokensAtLess(lx, Filters(lx, 0, s).0, 1, 0, s);
    } else {
      FiltersSee(lx, 0, s[n..]);
      TokensAtFirst(lx, Token(s[..n], 0), Filters(lx, 0, s[n..]).0, s);
    }
  }

  /** A group that is not the first begins where a comma is seen, and has taken the comma unless
      nothing would be left. */
  ghost predicate LedByComma(lx: Lexer, lead: string, s: string) {
    var n := Take(lx.comma, s);
    n > 0 && lead == if n == |s| then "" else s[..n]
  }

  /** ts are the tokens of one round after the other from the front of s on, with no comma seen between
      them. */
  ghost predicate Unbroken(lx: Lexer, ts: seq<Token>, s: string)
    decreases |s|
  {
    var (round, rest) := Round(lx, s);
    ts == [] || (round != [] && round <= ts &&
      (ts == round || (Take(lx.comma, rest) == 0 && Unbroken(lx, ts[|round|..], rest))))
  }

  lemma UnbrokenMore(lx: Lexer, us: seq<Token>, s: string)
    requires var (round, rest) := Round(lx, s);
      round != [] && (us != [] ==> Take(lx.comma, rest) == 0) && Unbroken(lx, us, rest)
    ensures Unbroken(lx, Round(lx, s).0 + us, s)
  {
    var round := Round(lx, s).0;
    assert (round + us)[|round|..] == us;
    if us == [] { assert round + us == round; }
  }

  /** g stands at the front of s: led by a comma, and unbroken. */
  ghost predicate LedBy(lx: Lexer, g: Group, s: string) {
    |Piece(g)| <= |s| && LedByComma(lx, g.lead, s) && Unbroken(lx, g.tokens, s[|g.lead|..])
  }

  ghost function Leading(lx: Lexer): (Group, string) -> bool { (g, s) => LedBy(lx, g, s) }

  /** Each of gs stands as ok says, one after the other from place at on. */
  ghost predicate Line(ok: (Group, string) -> bool, gs: seq<Group>, s: string, at: nat)
    decreases |gs|
  {
    at <= |s| && (gs == [] || (ok(gs[0], s[at..]) && Line(ok, gs[1..], s, at + |Piece(gs[0])|)))
  }

  lemma LineFirst(ok: (Group, string) -> bool, g: Group, gs: seq<Group>, s: string, at: nat)
    requires at <= |s| && ok(g, s[at..]) && Line(ok, gs, s, at + |Piece(g)|)
    ensures Line(ok, [g] + gs, s, at)
  {
    assert ([g] + gs)[1..] == gs;
  }

  lemma {:induction false} LineShift(ok: (Group, string) -> bool, gs: seq<Group>, s: string, m: nat, at: nat)
    requires m <= |s| && Line(ok, gs, s[m..], at)
    ensures Line(ok, gs, s, m + at)
    decreases |gs|
  {
    assert s[m..][at..] == s[m + at..];
    if gs != [] { LineShift(ok, gs[1..], s, m, at + |Piece(gs[0])|); }
  }

  lemma {:induction false} LineAt(ok: (Group, string) -> bool, gs: seq<Group>, s: string, at: nat, k: nat)
    requires Line(ok, gs, s, at) && k < |gs|
    ensures at + |Source(gs[..k])| <= |s| && ok(gs[k], s[at + |Source(gs[..k])|..])
    decreases k
  {
    if k == 0 {
      assert gs[..0] == [];
    } else {
      var tail := gs[1..];
      LineAt(ok, tail, s, at + |Piece(gs[0])|, k - 1);
      SourceFront(gs, k);
      assert tail[k - 1] == gs[k];
    }
  }

  lemma SourceFront(gs: seq<Group>, k: nat)
    requires 0 < k <= |gs|
    ensures |Source(gs[..k])| == |Piece(gs[0])| + |Source(gs[1..][..k - 1])|
  {
    assert gs[..k] == [gs[0]] + gs[1..][..k - 1];
    SourceCons(gs[0], gs[1..][..k - 1]);
  }

  lemma {:induction false} ScanLed(lx: Lexer, s: string)
    ensures var (ts, gs, rest) := Scan(lx, s); Unbroken(lx, ts, s) && Line(Leading(lx), gs, s, |Text(ts)|)
    decreases |s|
  {
    ScanLossless(lx, s);
    RoundLossless(lx, s);
    var (ts, rest) := Round(lx, s);
    if ts != [] && rest != "" {
      assert s[|Text(ts)|..] == rest;
      if SeesComma(lx, rest) {
        var n := CommaAt(lx, rest);
        ScanLed(lx, rest[n..]);
        LedGroup(lx, rest, n, Scan(lx, rest[n..]).0);
        LedComma(Leading(lx), s, |Text(ts)|, rest, n, Scan(lx, rest[n..]).0, Scan(lx, rest[n..]).1);
        UnbrokenOne(lx, s);
      } else {
        ScanLed(lx, rest);
        LedOn(lx, s, rest, ts, Scan(lx, rest).0, Scan(lx, rest).1);
        UnbrokenMore(lx, Scan(lx, rest).0, s);
      }
    }
  }

  lemma UnbrokenOne(lx: Lexer, s: string)
    ensures Unbroken(lx, Round(lx, s).0, s)
  {
  }

  lemma LedGroup(lx: Lexer, rest: string, n: nat, us: seq<Token>)
    requires n <= |rest| && |Text(us)| <= |rest| - n && LedByComma(lx, rest[..n], rest) && Unbroken(lx, us, rest[n..])
    ensures Leading(lx)(Group(rest[..n], us), rest)
  {
  }

  lemma LedComma(ok: (Group, string) -> bool, s: string, m: nat, rest: string, n: nat, us: seq<Token>, gs: seq<Group>)
    requires m <= |s| && rest == s[m..] && n <= |rest| && ok(Group(rest[..n], us), rest)
    requires Line(ok, gs, rest[n..], |Text(us)|)
    ensures Line(ok, [Group(rest[..n], us)] + gs, s, m)
  {
    assert rest[n..] == s[m + n..];
    LineShift(ok, gs, s, m + n, |Text(us)|);
    LineFirst(ok, Group(rest[..n], us), gs, s, m);
  }

  lemma LedOn(lx: Lexer, s: string, rest: string, ts: seq<Token>, us: seq<Token>, gs: seq<Group>)
    requires |Text(ts)| <= |s| && rest == s[|Text(ts)|..] && Line(Leading(lx), gs, rest, |Text(us)|)
    ensures Line(Leading(lx), gs, s, |Text(ts + us)|)
  {
    TextConcat(ts, us);
    LineShift(Leading(lx), gs, s, |Text(ts)|, |Text(us)|);
  }

  /** In every selector the groups after the first are each led by a comma, and one that ends the
      selector is left standing; and within a group no comma is seen between its rounds. */
  lemma GroupsLed(lx: Lexer, selector: string, k: nat)
    requires k < |Tokenization(lx, selector).0|
    ensures var gs := Tokenization(lx, selector).0;
      if k == 0 then gs[k].lead == "" && Unbroken(lx, gs[k].tokens, selector)
      else |Source(gs[..k])| <= |selector| && LedBy(lx, gs[k], selector[|Source(gs[..k])|..])
  {
    var (ts, more, rest) := Scan(lx, selector);
    ScanLed(lx, selector);
    assert Tokenization(lx, selector).0 == [Group("", ts)] + more;
    if k > 0 { LineBehind(Leading(lx), Group("", ts), more, selector, k); }
  }

  lemma LineBehind(ok: (Group, string) -> bool, g: Group, more: seq<Group>, s: string, k: nat)
    requires 0 < k <= |more| && Line(ok, more, s, |Piece(g)|)
    ensures var gs := [g] + more;
      |Source(gs[..k])| <= |s| && ok(gs[k], s[|Source(gs[..k])|..])
  {
    LineAt(ok, more, s, |Piece(g)|, k - 1);
    assert ([g] + more)[1..] == more;
    SourceFront([g] + more, k);
  }

  // ----- the loop -----

  datatype Parsed = Excess(length: nat) | SyntaxError | Groups(groups: seq<seq<Token>>)

  function TokensOf(gs: seq<Group>): seq<seq<Token>> {
    seq(|gs|, i requires 0 <= i < |gs| => gs[i].tokens)
  }

  /** The filters loop of one round. */
  method RunFilters(lx: Lexer, soFar: string) returns (tokens: seq<Token>, rest: string)
    ensures (tokens, rest) == Filters(lx, 0, soFar)
  {
    tokens, rest := [], soFar;
    var k := 0;
    assert [] + Filters(lx, 0, soFar).0 == Filters(lx, 0, soFar).0;
    while k < |lx.filters|
      invariant 0 <= k <= |lx.filters|
      invariant Filters(lx, 0, soFar).0 == tokens + Filters(lx, k, rest).0
      invariant Filters(lx, 0, soFar).1 == Filters(lx, k, rest).1
    {
      var n := Take(lx.filters[k], rest);
      FiltersStep(lx, k, rest, tokens);
      if n > 0 {
        tokens := tokens + [Token(rest[..n], k + 1)];
        rest := rest[n..];
      }
      k := k + 1;
    }
    assert Filters(lx, k, rest) == ([], rest) && tokens + [] == tokens;
  }

  lemma FiltersStep(lx: Lexer, k: nat, s: string, before: seq<Token>)
    requires k < |lx.filters|
    ensures var n := Take(lx.filters[k], s);
      && before + Filters(lx, k, s).0 ==
         (if n == 0 then before else before + [Token(s[..n], k + 1)]) + Filters(lx, k + 1, s[n..]).0
      && Filters(lx, k, s).1 == Filters(lx, k + 1, s[n..]).1
  {
    var n := Take(lx.filters[k], s);
    if n == 0 {
      assert s[0..] == s;
    } else {
      var t, more := [Token(s[..n], k + 1)], Filters(lx, k + 1, s[n..]).0;
      assert before + (t + more) == (before + t) + more;
    }
  }

  /** A combinator, then the filters. */
  method RunRound(lx: Lexer, soFar: string) returns (tokens: seq<Token>, rest: string)
    ensures (tokens, rest) == Round(lx, soFar)
  {
    tokens, rest := [], soFar;
    var n := Take(lx.combinator, soFar);
    if n > 0 {
      tokens := [Token(soFar[..n], 0)];
      rest := soFar[n..];
    }
    var more;
    more, rest := RunFilters(lx, rest);
    assert n == 0 ==> tokens + more == more;
    tokens := tokens + more;
  }

  function AddTokens(gs: seq<Group>, ts: seq<Token>): seq<Group>
    requires gs != []
  {
    gs[..|gs| - 1] + [gs[|gs| - 1].(tokens := gs[|gs| - 1].tokens + ts)]
  }

  /** The last of gs has been begun; s is scanned into it. */
  function ScanInto(lx: Lexer, gs: seq<Group>, s: string): (seq<Group>, string)
    requires gs != []
  {
    var (us, more, end) := Scan(lx, s);
    (AddTokens(gs, us) + more, end)
  }

  /** The outcome from the top of the loop on, when it is not the first time. */
  function Resume(lx: Lexer, gs: seq<Group>, s: string): (seq<Group>, string)
    requires gs != []
  {
    if s == "" then (gs, s)
    else if SeesComma(lx, s) then ScanInto(lx, gs + [Group(s[..CommaAt(lx, s)], [])], s[CommaAt(lx, s)..])
    else ScanInto(lx, gs, s)
  }

  /** One time through the loop body. */
  lemma ScanIntoStep(lx: Lexer, gs: seq<Group>, s: string)
    requires gs != []
    ensures var (ts, rest) := Round(lx, s);
      ScanInto(lx, gs, s) == if ts == [] then (gs, s) else Resume(lx, AddTokens(gs, ts), rest)
  {
    var (ts, rest) := Round(lx, s);
    var last := gs[|gs| - 1];
    if ts == [] {
      assert last.tokens + [] == last.tokens;
      assert AddTokens(gs, []) + [] == gs;
    } else if rest == "" {
      assert AddTokens(gs, ts) + [] == AddTokens(gs, ts);
    } else if SeesComma(lx, rest) {
      var n := CommaAt(lx, rest);
      var (us, more, end) := Scan(lx, rest[n..]);
      var g := Group(rest[..n], []);
      assert [] + us == us;
      assert AddTokens(AddTokens(gs, ts) + [g], us) == AddTokens(gs, ts) + [Group(rest[..n], us)];
      assert AddTokens(gs, ts) + ([Group(rest[..n], us)] + more) == (AddTokens(gs, ts) + [Group(rest[..n], us)]) + more;
    } else {
      var (us, more, end) := Scan(lx, rest);
      assert (last.tokens + ts) + us == last.tokens + (ts + us);
      assert AddTokens(AddTokens(gs, ts), us) == AddTokens(gs, ts + us);
    }
  }

  /** The combinator and the filters of one time through the loop, for the group just begun. */
  method OneRound(lx: Lexer, groups: seq<seq<Token>>, ghost gs: seq<Group>, soFar: string)
    returns (more: seq<seq<Token>>, ghost hs: seq<Group>, rest: string, matched: bool)
    requires gs != [] && TokensOf(gs) == groups
    ensures hs != [] && TokensOf(hs) == more
    ensures ScanInto(lx, gs, soFar) == if matched then Resume(lx, hs, rest) else (hs, rest)
    ensures |rest| <= |soFar| && (matched ==> |rest| < |soFar|)
  {
    ScanIntoStep(lx, gs, soFar);
    var tokens;
    tokens, rest := RunRound(lx, soFar);
    matched := tokens != [];
    hs := AddTokens(gs, tokens);
    more := groups[..|groups| - 1] + [groups[|groups| - 1] + tokens];
    if !matched {
      assert gs[|gs| - 1].tokens + [] == gs[|gs| - 1].tokens;
      assert hs == gs;
    }
  }

  /** tokenize without its cache; gs follows groups with the comma texts. */
  method Tokenize(lx: Lexer, selector: string, parseOnly: bool) returns (r: Parsed)
    ensures var (gs, rest) := Tokenization(lx, selector);
      r == if parseOnly then Excess(|rest|) else if rest != "" then SyntaxError else Groups(TokensOf(gs))
  {
    var soFar := selector;
    var groups: seq<seq<Token>> := [];
    ghost var gs: seq<Group> := [];
    var first, matched := true, true;
    while soFar != "" && matched
      invariant TokensOf(gs) == groups
      invariant first ==> matched && soFar == selector && gs == []
      invariant !first ==> gs != []
      invariant !first ==> Tokenization(lx, selector) == if matched then Resume(lx, gs, soFar) else (gs, soFar)
      decreases |soFar|, matched
    {
      var comma := if first then 0 else Take(lx.comma, soFar);
      if first || comma > 0 {
        if comma == |soFar| { comma := 0; }
        gs := gs + [Group(soFar[..comma], [])];
        groups := groups + [[]];
        soFar := soFar[comma..];
      }
      if first { FirstScan(lx, selector); }
      first := false;
      groups, gs, soFar, matched := OneRound(lx, groups, gs, soFar);
    }
    r := if parseOnly then Excess(|soFar|) else if soFar != "" then SyntaxError else Groups(groups);
  }

  lemma FirstScan(lx: Lexer, selector: string)
    requires selector != ""
    ensures Tokenization(lx, selector) == ScanInto(lx, [Group("", [])], selector)
  {
    var (ts, gs, rest) := Scan(lx, selector);
    assert [] + ts == ts;
    assert AddTokens([Group("", [])], ts) == [Group("", ts)];
  }

  method ToSelector(tokens: seq<Token>) returns (selector: string)
    ensures selector == Text(tokens)
  {
    selector := "";
    for i := 0 to |tokens|
      invariant selector == Text(tokens[..i])
    {
      assert tokens[..i + 1][..i] == tokens[..i];
      selector := selector + tokens[i].value;
    }
    assert tokens[..|tokens|] == tokens;
  }
}
