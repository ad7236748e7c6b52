/** addClass, removeClass and hasClass: editing a padded string as a list of names
    (src/main/webapp/javascript/jquery-1.10.2.js). */
module ClassNames {
  import opened Basics

  /** rclass, with the space it stands for. */
  predicate IsSpace(c: char) { c == ' ' || c == '\t' || c == '\r' || c == '\n' || c == '\U{000C}' }

  /** What \S leaves out and what jQuery.trim takes off: white space and line ends of section 7.2
      and 7.3 of ECMA-262, edition 5.1. */
  predicate IsWhite(c: char) {
    || IsSpace(c) || c == '\U{000B}' || c == '\U{00A0}' || c == '\U{FEFF}' || c == '\U{1680}' || c == '\U{180E}'
    || '\U{2000}' <= c <= '\U{200A}' || c == '\U{2028}' || c == '\U{2029}' || c == '\U{202F}' || c == '\U{205F}'
    || c == '\U{3000}'
  }

  /** str.replace( rclass, " " ) */
  function Blanked(s: string): string {
    seq(|s|, i requires 0 <= i < |s| => if IsSpace(s[i]) then ' ' else s[i])
  }

  // ----- names in a string -----

  /** The names completed so far and the one begun. */
  function Scan(s: string): (seq<string>, string) {
    if s == "" then ([], "")
    else
      var (ws, w) := Scan(s[..|s| - 1]);
      var c := s[|s| - 1];
      if !IsSpace(c) then (ws, w + [c]) else if w == "" then (ws, "") else (ws + [w], "")
  }

  /** The names in a class attribute: what the characters of rclass separate. */
  function Words(s: string): seq<string> {
    var (ws, w) := Scan(s);
    if w == "" then ws else ws + [w]
  }

  predicate IsName(w: string) { w != "" && forall i :: 0 <= i < |w| ==> !IsSpace(w[i]) }

  /** A space ends the name before it. */
  lemma {:induction false} ScanJoin(a: string, b: string)
    ensures Scan(a + " " + b) == (Words(a) + Scan(b).0, Scan(b).1)
  {
    if b == "" {
      assert a + " " + b == a + " ";
      assert (a + " ")[..|a|] == a;
      assert Words(a) + [] == Words(a);
    } else {
      var s, d := a + " " + b, b[..|b| - 1];
      assert s[..|s| - 1] == a + " " + d && s[|s| - 1] == b[|b| - 1];
      ScanJoin(a, d);
      var (ws, w) := Scan(d);
      assert (Words(a) + ws) + [w] == Words(a) + (ws + [w]);
    }
  }

  lemma WordsJoin(a: string, b: string)
    ensures Words(a + " " + b) == Words(a) + Words(b)
  {
    ScanJoin(a, b);
    var (ws, w) := Scan(b);
    assert (Words(a) + ws) + [w] == Words(a) + (ws + [w]);
  }

  lemma {:induction false} ScanName(w: string)
    requires forall i :: 0 <= i < |w| ==> !IsSpace(w[i])
    ensures Scan(w) == ([], w)
  {
    if w != "" {
      ScanName(w[..|w| - 1]);
      assert w == w[..|w| - 1] + [w[|w| - 1]];
    }
  }

  lemma WordsName(w: string)
    requires forall i :: 0 <= i < |w| ==> !IsSpace(w[i])
    ensures Words(w) == if w == "" then [] else [w]
  {
    ScanName(w);
  }

  lemma WordsEnd(s: string)
    ensures Words(s + " ") == Words(s)
  {
    WordsJoin(s, "");
    assert s + " " + "" == s + " ";
  }

  lemma WordsStart(s: string)
    ensures Words(" " + s) == Words(s)
  {
    WordsJoin("", s);
    assert "" + " " + s == " " + s;
  }

  /** Around a name between spaces. */
  lemma WordsAround(a: string, w: string, b: string)
    requires IsName(w)
    ensures Words(a + (" " + w + " ") + b) == Words(a) + [w] + Words(b)
  {
    WordsName(w);
    WordsJoin(a, w);
    WordsJoin(a + " " + w, b);
    BlanksApart(a, w, b);
  }

  lemma BlanksApart(a: string, w: string, b: string)
    ensures a + (" " + w + " ") + b == (a + " " + w) + " " + b
  {
  }

  /** Only blanks separate names once rclass has been replaced. */
  lemma {:induction false} BlankedWords(s: string)
    ensures Scan(Blanked(s)) == Scan(s)
  {
    if s != "" {
      BlankedWords(s[..|s| - 1]);
      assert Blanked(s)[..|s| - 1] == Blanked(s[..|s| - 1]);
    }
  }

  // ----- finding a name -----

  /** The only white space in s is the blank. */
  predicate Plain(s: string) { forall i :: 0 <= i < |s| ==> IsSpace(s[i]) ==> s[i] == ' ' }

  /** The name begun stands at the end of s, after a space or nothing. */
  lemma {:induction false} ScanEnd(s: string)
    ensures var w := Scan(s).1;
      && |w| <= |s| && s[|s| - |w|..] == w && (|w| == |s| || IsSpace(s[|s| - |w| - 1]))
      && forall i :: 0 <= i < |w| ==> !IsSpace(w[i])
  {
    if s != "" {
      var t, c := s[..|s| - 1], s[|s| - 1];
      ScanEnd(t);
      if !IsSpace(c) {
        var from := |t| - |Scan(t).1|;
        assert s[from..] == t[from..] + [c];
      }
    }
  }

  /** In a plain string with a blank in front, a completed name stands between two blanks. */
  lemma {:induction false} ScanOccurs(s: string)
    requires Plain(s)
    ensures forall w :: w in Scan(s).0 ==> IsName(w) && Occurs(" " + s, " " + w + " ")
  {
    if s != "" {
      var init := s[..|s| - 1];
      ScanOccurs(init);
      assert (" " + init) + [s[|s| - 1]] == " " + s;
      var (ws, v) := Scan(init);
      forall w | w in ws ensures Occurs(" " + s, " " + w + " ") {
        OccursLonger(" " + init, [s[|s| - 1]], " " + w + " ");
      }
      if IsSpace(s[|s| - 1]) && v != "" {
        NewOccurs(s, v);
      }
    }
  }

  /** The name that the space at the end of s completes. */
  lemma NewOccurs(s: string, v: string)
    requires Plain(s) && s != "" && s[|s| - 1] == ' ' && v == Scan(s[..|s| - 1]).1 && v != ""
    ensures IsName(v) && Occurs(" " + s, " " + v + " ")
  {
    var t := s[..|s| - 1];
    ScanEnd(t);
    var before := t[..|t| - |v|];
    assert s == before + v + " ";
    assert before != "" ==> before[|before| - 1] == t[|t| - |v| - 1];
    BetweenBlanks(before, v);
  }

  lemma BetweenBlanks(before: string, v: string)
    requires Plain(before) && (before == "" || IsSpace(before[|before| - 1]))
    ensures Occurs(" " + (before + v + " "), " " + v + " ")
  {
    var a := if before == "" then "" else " " + before[..|before| - 1];
    assert " " + before == a + " ";
    assert " " + (before + v + " ") == a + (" " + v + " ");
    OccursAfter(a, " " + v + " ");
  }

  lemma OccursAfter(a: string, pattern: string)
    ensures Occurs(a + pattern, pattern)
  {
    assert OccursAt(a + pattern, pattern, |a|);
  }

  lemma OccursLonger(s: string, t: string, pattern: string)
    requires Occurs(s, pattern)
    ensures Occurs(s + t, pattern)
  {
    var i: nat :| OccursAt(s, pattern, i);
    assert (s + t)[i..i + |pattern|] == s[i..i + |pattern|];
    assert OccursAt(s + t, pattern, i);
  }

  /** cur of the three methods: blanks only, one at each end. */
  predicate Padded(cur: string) {
    Plain(cur) && cur != "" && cur[0] == ' ' && cur[|cur| - 1] == ' '
  }

  /** Looking for the name between blanks is list membership. */
  lemma OccursIffMember(cur: string, w: string)
    requires Padded(cur) && IsName(w)
    ensures Occurs(cur, " " + w + " ") <==> w in Words(cur)
  {
    var pattern := " " + w + " ";
    if Occurs(cur, pattern) {
      var i: nat :| OccursAt(cur, pattern, i);
      WordsAround(cur[..i], w, cur[i + |pattern|..]);
      assert cur == cur[..i] + pattern + cur[i + |pattern|..];
    }
    if w in Words(cur) {
      var s := cur[1..];
      assert cur == " " + s;
      WordsStart(s);
      ScanOccurs(s);
      if s != "" {
        assert s[|s| - 1] == ' ';
        assert Scan(s).1 == "";
      }
      assert w in Scan(s).0;
    }
  }

  // ----- the edits -----

  /** ws followed by those of cs, in order, that are not there yet. */
  function AddMissing(ws: seq<string>, cs: seq<string>): seq<string> {
    if cs == [] then ws
    else
      var before, c := AddMissing(ws, cs[..|cs| - 1]), cs[|cs| - 1];
      if c in before then before else before + [c]
  }

  /** ws without any c. */
  function Drop(ws: seq<string>, c: string): seq<string> {
    if ws == [] then []
    else
      var rest, w := Drop(ws[..|ws| - 1], c), ws[|ws| - 1];
      if w == c then rest else rest + [w]
  }

  function DropAll(ws: seq<string>, cs: seq<string>): seq<string> {
    if cs == [] then ws else Drop(DropAll(ws, cs[..|cs| - 1]), cs[|cs| - 1])
  }

  lemma {:induction false} DropConcat(xs: seq<string>, ys: seq<string>, c: string)
    ensures Drop(xs + ys, c) == Drop(xs, c) + Drop(ys, c)
  {
    if ys == [] {
      assert xs + ys == xs;
    } else {
      DropConcat(xs, ys[..|ys| - 1], c);
      assert (xs + ys)[..|xs + ys| - 1] == xs + ys[..|ys| - 1];
    }
  }

  lemma DropOne(xs: seq<string>, c: string, ys: seq<string>)
    ensures Drop(xs + [c] + ys, c) == Drop(xs + ys, c)
  {
    DropConcat(xs + [c], ys, c);
    DropConcat(xs, ys, c);
    assert (xs + [c])[..|xs|] == xs;
  }

  lemma {:induction false} DropAbsent(ws: seq<string>, c: string)
    requires c !in ws
    ensures Drop(ws, c) == ws
  {
    if ws != [] { DropAbsent(ws[..|ws| - 1], c); }
  }

  /** The first place of w in cs. */
  function FirstPlace(cs: seq<string>, w: string): (k: nat)
    requires w in cs
    ensures k < |cs| && cs[k] == w && w !in cs[..k]
  {
    if w in cs[..|cs| - 1] then
      var k := FirstPlace(cs[..|cs| - 1], w);
      assert cs[..|cs| - 1][..k] == cs[..k];
      k
    else |cs| - 1
  }

  /** Adding what is missing: the names stay in front; behind them come those of cs that were not
      there, each once, in the order of their first places in cs. */
  lemma {:induction false} AddMissingMeans(ws: seq<string>, cs: seq<string>)
    ensures var r := AddMissing(ws, cs);
      && ws <= r
      && (forall w :: w in r <==> w in ws || w in cs)
      && (forall i :: |ws| <= i < |r| ==> r[i] in cs && r[i] !in ws)
      && (forall i, j :: |ws| <= i < j < |r| ==> FirstPlace(cs, r[i]) < FirstPlace(cs, r[j]))
  {
    if cs != [] {
      var init, c := cs[..|cs| - 1], cs[|cs| - 1];
      AddMissingMeans(ws, init);
      var before, r := AddMissing(ws, init), AddMissing(ws, cs);
      forall i | |ws| <= i < |before| ensures FirstPlace(cs, before[i]) == FirstPlace(init, before[i]) < |init| {
      }
      if c !in before {
        assert FirstPlace(cs, c) == |init|;
        assert forall i :: 0 <= i < |before| ==> r[i] == before[i];
      }
    }
  }

  /** Dropping takes each name by itself: w stays, where it stands, if and only if it is not in
      cs. */
  lemma {:induction false} DropAllMeans(ws: seq<string>, cs: seq<string>)
    ensures forall us, vs :: ws == us + vs ==> DropAll(ws, cs) == DropAll(us, cs) + DropAll(vs, cs)
    ensures forall w :: DropAll([w], cs) == if w in cs then [] else [w]
    ensures forall w :: w in DropAll(ws, cs) <==> w in ws && w !in cs
  {
    if cs != [] {
      var init, c := cs[..|cs| - 1], cs[|cs| - 1];
      DropAllMeans(ws, init);
      forall us, vs | ws == us + vs ensures DropAll(ws, cs) == DropAll(us, cs) + DropAll(vs, cs) {
        DropConcat(DropAll(us, init), DropAll(vs, init), c);
      }
      forall w ensures DropAll([w], cs) == if w in cs then [] else [w] { DropSingle(w, cs); }
      DropMembers(DropAll(ws, init), c);
    }
  }

  lemma DropSingle(w: string, cs: seq<string>)
    requires cs != [] && DropAll([w], cs[..|cs| - 1]) == if w in cs[..|cs| - 1] then [] else [w]
    ensures DropAll([w], cs) == if w in cs then [] else [w]
  {
    assert [w][..0] == [];
    assert Drop([], cs[|cs| - 1]) == [];
  }

  lemma {:induction false} DropMembers(ws: seq<string>, c: string)
    ensures forall w :: w in Drop(ws, c) <==> w in ws && w != c
  {
    if ws != [] {
      DropMembers(ws[..|ws| - 1], c);
      assert ws == ws[..|ws| - 1] + [ws[|ws| - 1]];
    }
  }

  /** str.indexOf( pattern ) */
  method IndexOf(s: string, pattern: string) returns (i: int)
    ensures i >= 0 ==> OccursAt(s, pattern, i)
    ensures i < 0 <==> !Occurs(s, pattern)
  {
    i := 0;
    while i + |pattern| <= |s|
      invariant 0 <= i && forall j: nat :: j < i ==> !OccursAt(s, pattern, j)
    {
      if s[i..i + |pattern|] == pattern { return; }
      i := i + 1;
    }
    i := -1;
  }

  // ----- trimming -----

  function TrimLeft(w: string): string { if w != "" && IsWhite(w[0]) then TrimLeft(w[1..]) else w }

  function TrimRight(w: string): string {
    if w != "" && IsWhite(w[|w| - 1]) then TrimRight(w[..|w| - 1]) else w
  }

  /** Blanks, tabs, line feeds, carriage returns and form feeds separate the names of a class attribute,
      and nothing else does. */
  lemma SpacesSplit(a: string, c: char, b: string)
    requires c == ' ' || c == '\t' || c == '\n' || c == '\r' || c == '\U{000C}'
    ensures Words(a + [c] + b) == Words(a) + Words(b)
    ensures (forall i :: 0 <= i < |a| ==> a[i] !in {' ', '\t', '\n', '\r', '\U{000C}'}) ==> Words(a) == if a == "" then [] else [a]
  {
    BlankedWords(a + [c] + b);
    BlankedWords(a);
    BlankedWords(b);
    assert Blanked(a + [c] + b) == Blanked(a) + " " + Blanked(b);
    WordsJoin(Blanked(a), Blanked(b));
    if forall i :: 0 <= i < |a| ==> a[i] !in {' ', '\t', '\n', '\r', '\U{000C}'} { WordsName(a); }
  }

  /** Names without the white characters that the first begins with. */
  function StripFront(ws: seq<string>): seq<string> {
    if ws == [] then []
    else if TrimLeft(ws[0]) == "" then StripFront(ws[1..])
    else [TrimLeft(ws[0])] + ws[1..]
  }

  /** Names without the white characters that the last ends with. */
  function StripBack(ws: seq<string>): seq<string> {
    if ws == [] then []
    else
      var init, w := ws[..|ws| - 1], TrimRight(ws[|ws| - 1]);
      if w == "" then StripBack(init) else init + [w]
  }

  function Strip(ws: seq<string>): seq<string> { StripBack(StripFront(ws)) }

  /** Neither end has a white character, which may be part of a name though \S leaves it out. */
  predicate CleanEnds(ws: seq<string>) {
    ws != [] && ws[0] != "" && ws[|ws| - 1] != "" ==>
      !IsWhite(ws[0][0]) && !IsWhite(ws[|ws| - 1][|ws[|ws| - 1]| - 1])
  }

  function Size(ws: seq<string>): nat { if ws == [] then 0 else Size(ws[..|ws| - 1]) + |ws[|ws| - 1]| }

  lemma {:induction false} SizeFirst(ws: seq<string>)
    requires ws != []
    ensures Size(ws) == |ws[0]| + Size(ws[1..])
  {
    if |ws| > 1 {
      SizeFirst(ws[..|ws| - 1]);
      assert ws[1..][..|ws| - 2] == ws[..|ws| - 1][1..];
    }
  }

  lemma {:induction false} TrimLeftSize(w: string)
    ensures |TrimLeft(w)| <= |w| && (w != "" && IsWhite(w[0]) ==> |TrimLeft(w)| < |w|)
  {
    if w != "" && IsWhite(w[0]) { TrimLeftSize(w[1..]); }
  }

  lemma {:induction false} TrimRightSize(w: string)
    ensures |TrimRight(w)| <= |w| && (w != "" && IsWhite(w[|w| - 1]) ==> |TrimRight(w)| < |w|)
  {
    if w != "" && IsWhite(w[|w| - 1]) { TrimRightSize(w[..|w| - 1]); }
  }

  lemma {:induction false} StripFrontSize(ws: seq<string>)
    ensures Size(StripFront(ws)) <= Size(ws)
    ensures ws != [] && ws[0] != "" && IsWhite(ws[0][0]) ==> Size(StripFront(ws)) < Size(ws)
  {
    if ws != [] {
      TrimLeftSize(ws[0]);
      SizeFirst(ws);
      if TrimLeft(ws[0]) == "" {
        StripFrontSize(ws[1..]);
      } else {
        SizeFirst(StripFront(ws));
        assert StripFront(ws)[1..] == ws[1..];
      }
    }
  }

  lemma {:induction false} StripBackSize(ws: seq<string>)
    ensures Size(StripBack(ws)) <= Size(ws)
    ensures ws != [] && ws[|ws| - 1] != "" && IsWhite(ws[|ws| - 1][|ws[|ws| - 1]| - 1]) ==> Size(StripBack(ws)) < Size(ws)
  {
    if ws != [] {
      var w := ws[|ws| - 1];
      TrimRightSize(w);
      if TrimRight(w) == "" {
        StripBackSize(ws[..|ws| - 1]);
      } else {
        assert StripBack(ws)[..|ws| - 1] == ws[..|ws| - 1];
      }
    }
  }

  /** Trimming leaves a list of names as it is just when both ends are clean. */
  lemma StripIff(ws: seq<string>)
    requires forall w :: w in ws ==> w != ""
    ensures Strip(ws) == ws <==> CleanEnds(ws)
  {
    StripFrontSize(ws);
    StripBackSize(StripFront(ws));
    if ws != [] {
      assert ws[0] in ws && ws[|ws| - 1] in ws;
    }
  }

  /** Any separator splits the names as a blank does. */
  lemma WordsSplit(s: string, n: nat)
    requires n < |s| && IsSpace(s[n])
    ensures Words(s) == Words(s[..n]) + Words(s[n + 1..])
  {
    BlankedWords(s);
    BlankedWords(s[..n]);
    BlankedWords(s[n + 1..]);
    assert Blanked(s) == Blanked(s[..n]) + " " + Blanked(s[n + 1..]);
    WordsJoin(Blanked(s[..n]), Blanked(s[n + 1..]));
  }

  /** The name at the start of s, n characters long, and the names in the rest. */
  lemma WordsHead(s: string, n: nat)
    requires n <= |s| && (forall i :: 0 <= i < n ==> !IsSpace(s[i])) && (n < |s| ==> IsSpace(s[n]))
    ensures Words(s) == (if n == 0 then [] else [s[..n]]) + (if n == |s| then [] else Words(s[n + 1..]))
  {
    WordsName(s[..n]);
    if n == |s| {
      assert s[..n] == s;
    } else {
      WordsSplit(s, n);
    }
  }

  function RunLength(s: string): (n: nat)
    ensures n <= |s| && (forall i :: 0 <= i < n ==> !IsSpace(s[i])) && (n < |s| ==> IsSpace(s[n]))
  {
    if s == "" || IsSpace(s[0]) then 0 else 1 + RunLength(s[1..])
  }

  /** A white character taken off the front. */
  lemma FrontOff(s: string)
    requires s != "" && IsWhite(s[0])
    ensures StripFront(Words(s[1..])) == StripFront(Words(s))
  {
    var n := RunLength(s);
    if n == 0 {
      SpaceOff(s);
    } else {
      FirstName(s, n);
      StripNameOff(s[..n], if n == |s| then [] else Words(s[n + 1..]));
      assert s[..n][1..] == s[1..n];
    }
  }

  lemma SpaceOff(s: string)
    requires s != "" && IsSpace(s[0])
    ensures Words(s[1..]) == Words(s)
  {
    WordsSplit(s, 0);
    assert s[..0] == "" && [] + Words(s[1..]) == Words(s[1..]);
  }

  lemma StripNameOff(w: string, rest: seq<string>)
    requires w != "" && IsWhite(w[0])
    ensures StripFront([w] + rest) == StripFront(if |w| == 1 then rest else [w[1..]] + rest)
  {
    StripHead(w, rest);
    if |w| > 1 { StripHead(w[1..], rest); }
  }

  /** A name at the start, with and without its first character. */
  lemma FirstName(s: string, n: nat)
    requires 0 < n <= |s| && (forall i :: 0 <= i < n ==> !IsSpace(s[i])) && (n < |s| ==> IsSpace(s[n]))
    ensures var rest := if n == |s| then [] else Words(s[n + 1..]);
      Words(s) == [s[..n]] + rest && Words(s[1..]) == if n == 1 then rest else [s[1..n]] + rest
  {
    WordsHead(s, n);
    WordsHead(s[1..], n - 1);
    assert s[1..][..n - 1] == s[1..n];
    assert n < |s| ==> s[1..][n..] == s[n + 1..];
  }

  lemma StripHead(w: string, rest: seq<string>)
    ensures StripFront([w] + rest) == if TrimLeft(w) == "" then StripFront(rest) else [TrimLeft(w)] + rest
  {
    assert ([w] + rest)[1..] == rest;
  }

  lemma StripTail(ws: seq<string>, w: string)
    ensures StripBack(ws + [w]) == if TrimRight(w) == "" then StripBack(ws) else ws + [TrimRight(w)]
  {
    assert (ws + [w])[..|ws|] == ws;
  }

  /** A white character taken off the back. */
  lemma BackOff(s: string)
    requires s != "" && IsWhite(s[|s| - 1])
    ensures StripBack(Words(s[..|s| - 1])) == StripBack(Words(s))
  {
    var (ws, w) := Scan(s[..|s| - 1]);
    var c := s[|s| - 1];
    if !IsSpace(c) {
      assert (w + [c])[..|w|] == w;
      StripTail(ws, w + [c]);
      StripTail(ws, w);
    }
  }

  lemma CleanFront(s: string)
    requires s == "" || !IsWhite(s[0])
    ensures StripFront(Words(s)) == Words(s)
  {
    if s != "" {
      var n := RunLength(s);
      WordsHead(s, n);
      StripHead(s[..n], if n == |s| then [] else Words(s[n + 1..]));
    }
  }

  lemma CleanBack(s: string)
    requires s == "" || !IsWhite(s[|s| - 1])
    ensures StripBack(Words(s)) == Words(s)
  {
    if s != "" {
      var (ws, w) := Scan(s[..|s| - 1]);
      StripTail(ws, w + [s[|s| - 1]]);
    }
  }

  /** jQuery.trim: white space at both ends goes. */
  method Trim(s: string) returns (t: string)
    ensures Words(t) == Strip(Words(s))
    ensures t != "" ==> !IsWhite(t[0]) && !IsWhite(t[|t| - 1])
  {
    t := s;
    while t != "" && IsWhite(t[0])
      invariant StripFront(Words(t)) == StripFront(Words(s))
      decreases |t|
    {
      FrontOff(t);
      t := t[1..];
    }
    CleanFront(t);
    while t != "" && IsWhite(t[|t| - 1])
      invariant StripBack(Words(t)) == Strip(Words(s))
      invariant t != "" ==> !IsWhite(t[0])
      decreases |t|
    {
      BackOff(t);
      t := t[..|t| - 1];
    }
    CleanBack(t);
  }

  // ----- the names in an argument -----

  function Whitened(s: string): string {
    seq(|s|, i requires 0 <= i < |s| => if IsWhite(s[i]) then ' ' else s[i])
  }

  /** value.match( core_rnotwhite ) || []: what white space separates. */
  function Names(value: string): seq<string> { Words(Whitened(value)) }

  /** Every white character separates names, and nothing else does: an argument without any is one name,
      unless it is empty. */
  lemma NamesJoin(a: string, c: char, b: string)
    requires IsWhite(c)
    ensures Names(a + [c] + b) == Names(a) + Names(b)
    ensures (forall i :: 0 <= i < |a| ==> !IsWhite(a[i])) ==> Names(a) == if a == "" then [] else [a]
  {
    assert Whitened(a + [c] + b) == Whitened(a) + " " + Whitened(b);
    WordsJoin(Whitened(a), Whitened(b));
    if forall i :: 0 <= i < |a| ==> !IsWhite(a[i]) {
      assert Whitened(a) == a;
      WordsName(a);
    }
  }

  /** They hold no white space of either kind. */
  lemma NamesAreNames(value: string)
    ensures forall w :: w in Names(value) ==> IsName(w) && forall i :: 0 <= i < |w| ==> !IsWhite(w[i])
  {
    var s := Whitened(value);
    WordsAreNames(s);
    ScanOccurs(s);
    ScanEnd(s);
    forall w | w in Scan(s).0 ensures forall i :: 0 <= i < |w| ==> !IsWhite(w[i]) {
      var at: nat :| OccursAt(" " + s, " " + w + " ", at);
      forall i | 0 <= i < |w| ensures !IsWhite(w[i]) {
        assert (" " + s)[at..at + |w| + 2][i + 1] == (" " + w + " ")[i + 1] == w[i];
      }
    }
  }

  /** ( " " + className + " " ).replace( rclass, " " ) */
  function PaddedName(className: string): string { Blanked(" " + className + " ") }

  lemma PaddedNameWords(className: string)
    ensures Padded(PaddedName(className)) && Words(PaddedName(className)) == Words(className)
  {
    var s := " " + className + " ";
    BlankedWords(s);
    WordsEnd(" " + className);
    WordsStart(className);
    assert s == (" " + className) + " ";
  }

  class Element {
    var className: string
    const isElement: bool

    constructor (className: string, isElement: bool)
      ensures this.className == className && this.isElement == isElement
    {
      this.className, this.isElement := className, isElement;
    }

    /** addClass on one element. */
    method AddClass(value: string)
      modifies this
      ensures isElement && value != "" ==> Words(className) == Strip(AddMissing(Words(old(className)), Names(value)))
      ensures isElement && value != "" ==>
        var edited := AddMissing(Words(old(className)), Names(value)); Words(className) == edited <==> CleanEnds(edited)
      ensures !isElement || value == "" ==> className == old(className)
    {
      if value == "" || !isElement { return; }
      var classes := Names(value);
      NamesAreNames(value);
      PaddedNameWords(className);
      var cur := if className != "" then PaddedName(className) else " ";
      assert Words(cur) == Words(className) by { if className == "" { WordsEnd(""); assert "" + " " == " "; } }
      cur := AppendMissing(cur, classes);
      WordsAreNames(cur);
      StripIff(Words(cur));
      className := Trim(cur);
    }

    /** removeClass on one element; None is a call without arguments. */
    method RemoveClass(value: Option<string>)
      modifies this
      ensures isElement && value.None? ==> className == ""
      ensures isElement && value.Some? && value.value != "" ==>
        Words(className) == Strip(DropAll(Words(old(className)), Names(value.value)))
      ensures isElement && value.Some? && value.value != "" ==>
        var edited := DropAll(Words(old(className)), Names(value.value)); Words(className) == edited <==> CleanEnds(edited)
      ensures !isElement || value == Some("") ==> className == old(className)
    {
      if value == Some("") || !isElement { return; }
      var classes := if value.Some? then Names(value.value) else [];
      if className == "" {
        NothingToDrop(classes);
        return;
      }
      if value.Some? { NamesAreNames(value.value); }
      PaddedNameWords(className);
      var cur := PaddedName(className);
      cur := DropClasses(cur, classes);
      if value.Some? {
        WordsAreNames(cur);
        StripIff(Words(cur));
        className := Trim(cur);
      } else {
        className := "";
      }
    }

    /** hasClass on one element. */
    method HasClass(selector: string) returns (r: bool)
      ensures r <==> isElement && Occurs(PaddedName(className), " " + selector + " ")
      ensures IsName(selector) || !Plain(selector) ==> (r <==> isElement && selector in Words(className))
    {
      r := false;
      if IsName(selector) || !Plain(selector) { HasClassAt(className, selector); }
      if isElement {
        var at := IndexOf(PaddedName(className), " " + selector + " ");
        r := at >= 0;
      }
    }
  }

  /** The loop of addClass over the names. */
  method AppendMissing(cur0: string, classes: seq<string>) returns (cur: string)
    requires Padded(cur0) && forall i :: 0 <= i < |classes| ==> IsName(classes[i])
    ensures Padded(cur) && Words(cur) == AddMissing(Words(cur0), classes)
  {
    cur := cur0;
    for j := 0 to |classes|
      invariant Padded(cur) && Words(cur) == AddMissing(Words(cur0), classes[..j])
    {
      var clazz := classes[j];
      OccursIffMember(cur, clazz);
      var at := IndexOf(cur, " " + clazz + " ");
      if at < 0 {
        Appended(cur, clazz);
        cur := cur + clazz + " ";
      }
      assert classes[..j + 1][..j] == classes[..j];
    }
    assert classes[..|classes|] == classes;
  }

  /** The loop of removeClass over the names. */
  method DropClasses(cur0: string, classes: seq<string>) returns (cur: string)
    requires Padded(cur0) && forall i :: 0 <= i < |classes| ==> IsName(classes[i])
    ensures Padded(cur) && Words(cur) == DropAll(Words(cur0), classes)
  {
    cur := cur0;
    for j := 0 to |classes|
      invariant Padded(cur) && Words(cur) == DropAll(Words(cur0), classes[..j])
    {
      cur := RemoveAllOf(cur, classes[j]);
      DropNext(Words(cur0), classes, j);
    }
    assert classes[..|classes|] == classes;
  }

  lemma DropNext(ws: seq<string>, cs: seq<string>, j: nat)
    requires j < |cs|
    ensures DropAll(ws, cs[..j + 1]) == Drop(DropAll(ws, cs[..j]), cs[j])
  {
    assert cs[..j + 1][..j] == cs[..j];
  }

  /** The inner loop of removeClass: the string shrinks until the name is gone. */
  method RemoveAllOf(cur0: string, clazz: string) returns (cur: string)
    requires Padded(cur0) && IsName(clazz)
    ensures Padded(cur) && Words(cur) == Drop(Words(cur0), clazz)
  {
    cur := cur0;
    var at := IndexOf(cur, " " + clazz + " ");
    while at >= 0
      invariant Padded(cur) && Drop(Words(cur), clazz) == Drop(Words(cur0), clazz)
      invariant if at >= 0 then OccursAt(cur, " " + clazz + " ", at) else !Occurs(cur, " " + clazz + " ")
      decreases |cur|
    {
      cur := RemoveAt(cur, clazz, at);
      at := IndexOf(cur, " " + clazz + " ");
    }
    OccursIffMember(cur, clazz);
    DropAbsent(Words(cur), clazz);
  }

  /** cur.replace( " " + clazz + " ", " " ), the match being at `at`. */
  method RemoveAt(cur: string, clazz: string, at: nat) returns (next: string)
    requires Padded(cur) && IsName(clazz) && OccursAt(cur, " " + clazz + " ", at)
    ensures Padded(next) && |next| < |cur| && Drop(Words(next), clazz) == Drop(Words(cur), clazz)
  {
    Removed(cur, clazz, at);
    next := cur[..at] + " " + cur[at + |clazz| + 2..];
  }

  lemma Appended(cur: string, w: string)
    requires Padded(cur) && IsName(w)
    ensures Padded(cur + w + " ") && Words(cur + w + " ") == Words(cur) + [w]
  {
    var a := cur[..|cur| - 1];
    assert cur == a + " ";
    WordsEnd(a);
    AppendedTo(a, w);
    PaddedMore(cur, w);
  }

  lemma AppendedTo(a: string, w: string)
    requires IsName(w)
    ensures Words(a + " " + w + " ") == Words(a) + [w]
  {
    WordsEnd(a + " " + w);
    WordsJoin(a, w);
    WordsName(w);
  }

  lemma PaddedMore(cur: string, w: string)
    requires Padded(cur) && IsName(w)
    ensures Padded(cur + w + " ")
  {
  }

  lemma Removed(cur: string, w: string, at: nat)
    requires Padded(cur) && IsName(w) && OccursAt(cur, " " + w + " ", at)
    ensures var next := cur[..at] + " " + cur[at + |w| + 2..];
      Padded(next) && |next| < |cur| && Drop(Words(next), w) == Drop(Words(cur), w)
  {
    var a, b := cur[..at], cur[at + |w| + 2..];
    assert cur == a + (" " + w + " ") + b;
    WordsAround(a, w, b);
    WordsJoin(a, b);
    DropOne(Words(a), w, Words(b));
    assert b != "" ==> b[|b| - 1] == cur[|cur| - 1];
    assert a != "" ==> a[0] == cur[0];
  }

  lemma {:induction false} NothingToDrop(cs: seq<string>)
    ensures DropAll([], cs) == []
  {
    if cs != [] { NothingToDrop(cs[..|cs| - 1]); }
  }

  lemma {:induction false} WordsAreNames(s: string)
    ensures forall w :: w in Words(s) ==> IsName(w)
  {
    BlankedWords(s);
    ScanOccurs(Blanked(s));
    ScanEnd(Blanked(s));
  }

  lemma PlainInside(s: string, pattern: string)
    requires Plain(s) && Occurs(s, pattern)
    ensures Plain(pattern)
  {
    var i: nat :| OccursAt(s, pattern, i);
    forall k | 0 <= k < |pattern| ensures pattern[k] == s[i + k] { assert s[i..i + |pattern|][k] == s[i + k]; }
  }

  lemma HasClassAt(className: string, selector: string)
    requires IsName(selector) || !Plain(selector)
    ensures Occurs(PaddedName(className), " " + selector + " ") <==> selector in Words(className)
  {
    var cur, pattern := PaddedName(className), " " + selector + " ";
    PaddedNameWords(className);
    if IsName(selector) {
      OccursIffMember(cur, selector);
    } else {
      WordsAreNames(className);
      if Occurs(cur, pattern) {
        PlainInside(cur, pattern);
        assert forall k :: 0 <= k < |selector| ==> selector[k] == pattern[k + 1];
      }
    }
  }

  /** The search in the padded string is membership in the list of names, on every class string,
      if and only if the selector is a name or holds a tab or line end, which the padded string
      never does.  So an empty selector fails, and any that holds blanks but no other separator. */
  lemma HasClassIff(selector: string)
    ensures (forall className: string :: Occurs(PaddedName(className), " " + selector + " ") <==> selector in Words(className)) <==>
            IsName(selector) || !Plain(selector)
  {
    if IsName(selector) || !Plain(selector) {
      forall className: string
        ensures Occurs(PaddedName(className), " " + selector + " ") <==> selector in Words(className)
      {
        HasClassAt(className, selector);
      }
    } else {
      FoundAsItself(selector);
    }
  }

  /** A selector without tabs and line ends is found in itself as class string, name or not. */
  lemma FoundAsItself(selector: string)
    requires Plain(selector)
    ensures Occurs(PaddedName(selector), " " + selector + " ") && (!IsName(selector) ==> selector !in Words(selector))
  {
    assert PaddedName(selector) == " " + selector + " ";
    OccursAfter("", " " + selector + " ");
    assert "" + (" " + selector + " ") == " " + selector + " ";
    WordsAreNames(selector);
  }

  /** Two such selectors: the empty one on an element without classes, and two names as one. */
  lemma NotAName()
    ensures Occurs(PaddedName(""), " " + "" + " ") && "" !in Words("")
    ensures Occurs(PaddedName("a b"), " " + "a b" + " ") && "a b" !in Words("a b")
  {
    FoundAsItself("");
    FoundAsItself("a b");
    assert !IsName("a b") by { assert IsSpace("a b"[1]); }
  }

  /** A class string that is the white character v before x, as a vertical tab before a: adding b
      leaves the names x and b, not the two of the list edit. */
  lemma TabLost(v: char, x: char, b: string)
    requires IsWhite(v) && !IsSpace(v) && !IsWhite(x) && IsName(b) && forall i :: 0 <= i < |b| ==> !IsWhite(b[i])
    ensures Words([v, x]) == [[v, x]] && Names(b) == [b]
    ensures AddMissing([[v, x]], [b]) == [[v, x], b] && Strip([[v, x], b]) == [[x], b]
  {
    var w := [v, x];
    WordsName(w);
    NamesOfName(b);
    assert w[0] == v;
    AddOne(w, b);
    TrimFront(v, x);
    StripTwo(w, [x], b);
  }

  lemma NamesOfName(b: string)
    requires IsName(b) && forall i :: 0 <= i < |b| ==> !IsWhite(b[i])
    ensures Names(b) == [b]
  {
    assert Whitened(b) == b;
    WordsName(b);
  }

  lemma AddOne(w: string, b: string)
    requires w != b
    ensures AddMissing([w], [b]) == [w, b]
  {
    assert [b][..0] == [];
  }

  lemma TrimFront(v: char, x: char)
    requires IsWhite(v) && !IsWhite(x)
    ensures TrimLeft([v, x]) == [x]
  {
    assert [v, x][1..] == [x];
  }

  lemma StripTwo(w: string, t: string, b: string)
    requires TrimLeft(w) == t && t != "" && b != "" && TrimRight(b) == b
    ensures Strip([w, b]) == [t, b]
  {
    StripHead(w, [b]);
    assert [w] + [b] == [w, b] && [t] + [b] == [t, b];
    StripTail([t], b);
  }

  /** A vertical tab is such a character. */
  lemma VerticalTab()
    ensures IsWhite('\U{000B}') && !IsSpace('\U{000B}')
    ensures Strip(AddMissing(Words(['\U{000B}', 'a']), Names("b"))) == [['a'], "b"]
  {
    TabLost('\U{000B}', 'a', "b");
  }
}
