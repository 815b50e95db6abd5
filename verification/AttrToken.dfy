/** The attribute token of the legacy condition lexer.

    The token is defined by a regular expression (`AttributeToken`), matched
    leftmost-longest.  `AttrScanner` finds it with two tables built in one backward
    pass and a linear scan; `AttrScanner.TokenLen` is proved to return the length of
    the longest match.  Between the two stands a five-state automaton, proved to
    accept exactly the texts the expression matches. */
module AttrToken {

  // ---- Character classes ----

  predicate IsNameStart(c: char) {
    'A' <= c <= 'Z' || 'a' <= c <= 'z' || c == '_'
  }

  predicate IsAttrChar(c: char) {
    || IsNameStart(c) || '0' <= c <= '9'
    || c == '$' || c == '@' || c == ',' || c == ':' || c == '?' || c == '*' || c == '('
    || c == '=' || c == ')' || c == '-' || c == '.' || c == '~' || c == '>' || c == '<'
    || c == '/' || c == '&' || c == '|' || c == '!' || c == '\''
  }

  // ---- Regular expressions and what they match ----

  datatype Class = NameStart | Attr | AttrOrSpace | Just(c: char)

  predicate InClass(k: Class, c: char) {
    match k
    case NameStart => IsNameStart(c)
    case Attr => IsAttrChar(c)
    case AttrOrSpace => IsAttrChar(c) || c == ' '
    case Just(d) => c == d
  }

  datatype Re = One(k: Class) | Cat(left: Re, right: Re) | Star(body: Re)

  ghost predicate Matches(r: Re, s: string)
    decreases r, |s|
  {
    match r
    case One(k) => |s| == 1 && InClass(k, s[0])
    case Cat(a, b) => exists k :: 0 <= k <= |s| && Matches(a, s[..k]) && Matches(b, s[k..])
    case Star(a) => s == [] || exists k :: 0 < k <= |s| && Matches(a, s[..k]) && Matches(r, s[k..])
  }

  function Plus(r: Re): Re { Cat(r, Star(r)) }

  const ATTR := One(Attr)
  const RUN := One(AttrOrSpace)
  const OPENED := Cat(One(Just('[')), Star(RUN))
  const CLOSED := Cat(Plus(RUN), One(Just(']')))
  const GROUP := Cat(Star(OPENED), Cat(Plus(CLOSED), Star(ATTR)))

  /** `[A-Za-z_] ATTR* ( (\[ RUN*)* (RUN+ \])+ ATTR* )*` where RUN is ATTR and the space. */
  const AttributeToken := Cat(One(NameStart), Cat(Star(ATTR), Star(GROUP)))

  /** The length of the longest match at `i`, 0 standing for no match. */
  ghost predicate IsLongestMatch(s: string, i: nat, n: nat)
  {
    && (n > 0 ==> i + n <= |s| && Matches(AttributeToken, s[i..i + n]))
    && forall j :: i + n < j <= |s| ==> !Matches(AttributeToken, s[i..j])
  }

  // ---- Facts about matching ----

  lemma MatchCat(a: Re, b: Re, s: string, t: string)
    requires Matches(a, s) && Matches(b, t)
    ensures Matches(Cat(a, b), s + t)
  {
    var u := s + t;
    assert u[..|s|] == s && u[|s|..] == t;
  }

  lemma SplitCat(a: Re, b: Re, s: string) returns (l: string, r: string)
    requires Matches(Cat(a, b), s)
    ensures s == l + r && Matches(a, l) && Matches(b, r)
  {
    var k :| 0 <= k <= |s| && Matches(a, s[..k]) && Matches(b, s[k..]);
    l, r := s[..k], s[k..];
  }

  lemma SplitStar(a: Re, s: string) returns (l: string, r: string)
    requires Matches(Star(a), s) && s != []
    ensures s == l + r && l != [] && Matches(a, l) && Matches(Star(a), r)
  {
    var k :| 0 < k <= |s| && Matches(a, s[..k]) && Matches(Star(a), s[k..]);
    l, r := s[..k], s[k..];
  }

  lemma SplitCat3(a: Re, b: Re, c: Re, s: string) returns (x: string, y: string, z: string)
    requires Matches(Cat(a, Cat(b, c)), s)
    ensures s == x + y + z && Matches(a, x) && Matches(b, y) && Matches(c, z)
  {
    var t;
    x, t := SplitCat(a, Cat(b, c), s);
    y, z := SplitCat(b, c, t);
  }

  lemma MatchCat3(a: Re, b: Re, c: Re, x: string, y: string, z: string)
    requires Matches(a, x) && Matches(b, y) && Matches(c, z)
    ensures Matches(Cat(a, Cat(b, c)), x + y + z)
  {
    MatchCat(b, c, y, z);
    MatchCat(a, Cat(b, c), x, y + z);
    assert x + (y + z) == x + y + z;
  }

  lemma {:induction false} MatchStarAppend(a: Re, s: string, t: string)
    requires Matches(Star(a), s) && Matches(a, t)
    ensures Matches(Star(a), s + t)
    decreases |s|
  {
    var u := s + t;
    if s == [] {
      assert u == t;
      if t != [] {
        assert t[..|t|] == t && t[|t|..] == [];
      }
    } else {
      var k :| 0 < k <= |s| && Matches(a, s[..k]) && Matches(Star(a), s[k..]);
      MatchStarAppend(a, s[k..], t);
      assert u[..k] == s[..k] && u[k..] == s[k..] + t;
    }
  }

  /** A match of `a b c*` may be followed by one more match of `c`. */
  lemma AppendLast(a: Re, b: Re, c: Re, s: string, t: string)
    requires Matches(Cat(a, Cat(b, Star(c))), s) && Matches(c, t)
    ensures Matches(Cat(a, Cat(b, Star(c))), s + t)
  {
    var x, y, z := SplitCat3(a, b, Star(c), s);
    MatchStarAppend(c, z, t);
    MatchCat3(a, b, Star(c), x, y, z + t);
    assert x + y + (z + t) == s + t;
  }

  lemma {:induction false} MatchStarConcat(a: Re, s: string, t: string)
    requires Matches(Star(a), s) && Matches(Star(a), t)
    ensures Matches(Star(a), s + t)
    decreases |s|
  {
    var u := s + t;
    if s == [] {
      assert u == t;
    } else {
      var k :| 0 < k <= |s| && Matches(a, s[..k]) && Matches(Star(a), s[k..]);
      MatchStarConcat(a, s[k..], t);
      assert u[..k] == s[..k] && u[k..] == s[k..] + t;
    }
  }

  /** A run matched by RUN+ followed by `]` is matched by RUN+ `]`. */
  lemma MatchClosed(run: string)
    requires Matches(Plus(RUN), run)
    ensures Matches(Plus(CLOSED), run + "]")
  {
    MatchCat(Plus(RUN), One(Just(']')), run, "]");
    var t := run + "]";
    MatchCat(CLOSED, Star(CLOSED), t, "");
    assert t + "" == t;
  }

  /** A non-empty text matched by RUN* is matched by RUN+. */
  lemma StarIsPlus(run: string)
    requires Matches(Star(RUN), run) && run != []
    ensures Matches(Plus(RUN), run)
  {
    var k :| 0 < k <= |run| && Matches(RUN, run[..k]) && Matches(Star(RUN), run[k..]);
  }

  // ---- The automaton ----

  /** `Name(some)` and its two pending companions record whether a character of
      RUN+ is available for a `]` to close. */
  datatype State = Start | Name(some: bool) | Opened(some: bool) | Spaced | Dead

  function Step(q: State, c: char): State {
    match q
    case Start => if IsNameStart(c) then Name(false) else Dead
    case Name(some) =>
      if IsAttrChar(c) then Name(true)
      else if c == ' ' then Spaced
      else if c == '[' then Opened(false)
      else if c == ']' && some then Name(false)
      else Dead
    case Opened(some) =>
      if IsAttrChar(c) || c == ' ' then Opened(true)
      else if c == '[' then Opened(false)
      else if c == ']' && some then Name(false)
      else Dead
    case Spaced =>
      if IsAttrChar(c) || c == ' ' then Spaced
      else if c == ']' then Name(false)
      else Dead
    case Dead => Dead
  }

  function Run(q: State, s: string): State {
    if s == [] then q else Step(Run(q, s[..|s| - 1]), s[|s| - 1])
  }

  predicate Accepts(s: string) { Run(Start, s).Name? }

  lemma {:induction false} RunConcat(q: State, s: string, t: string)
    ensures Run(q, s + t) == Run(Run(q, s), t)
    decreases |t|
  {
    if t == [] {
      assert s + t == s;
    } else {
      var u := s + t;
      assert u[..|u| - 1] == s + t[..|t| - 1];
      RunConcat(q, s, t[..|t| - 1]);
    }
  }

  lemma {:induction false} DeadStays(s: string)
    ensures Run(Dead, s) == Dead
    decreases |s|
  {
    if s != [] { DeadStays(s[..|s| - 1]); }
  }

  // ---- The expression's matches are accepted ----

  lemma RunOne(q: State, k: Class, s: string)
    requires Matches(One(k), s)
    ensures s == [s[0]] && InClass(k, s[0]) && Run(q, s) == Step(q, s[0])
  {
    assert s[..0] == [] && Run(q, []) == q;
  }

  lemma {:induction false} RunAttrs(q: State, s: string)
    requires q.Name? && Matches(Star(ATTR), s)
    ensures Run(q, s).Name?
    decreases |s|
  {
    if s != [] {
      var l, r := SplitStar(ATTR, s);
      RunConcat(q, l, r);
      RunOne(q, Attr, l);
      RunAttrs(Run(q, l), r);
    }
  }

  /** States in which a `]` closes a run of RUN. */
  predicate Closable(q: State) { q == Name(true) || q == Opened(true) || q == Spaced }

  lemma {:induction false} RunXs(q: State, s: string)
    requires (Closable(q) || q.Opened?) && Matches(Star(RUN), s)
    ensures q.Opened? ==> Run(q, s).Opened?
    ensures Closable(q) ==> Closable(Run(q, s))
    decreases |s|
  {
    if s != [] {
      var l, r := SplitStar(RUN, s);
      RunConcat(q, l, r);
      RunOne(q, AttrOrSpace, l);
      RunXs(Run(q, l), r);
    }
  }

  lemma RunOpenedPart(q: State, s: string)
    requires (q.Name? || q.Opened?) && Matches(OPENED, s)
    ensures Run(q, s).Opened?
  {
    var l, r := SplitCat(One(Just('[')), Star(RUN), s);
    RunConcat(q, l, r);
    RunOne(q, Just('['), l);
    RunXs(Run(q, l), r);
  }

  lemma {:induction false} RunOpened(q: State, s: string)
    requires (q.Name? || q.Opened?) && Matches(Star(OPENED), s)
    ensures Run(q, s).Name? || Run(q, s).Opened?
    decreases |s|
  {
    if s != [] {
      var l, r := SplitStar(OPENED, s);
      RunConcat(q, l, r);
      RunOpenedPart(q, l);
      RunOpened(Run(q, l), r);
    }
  }

  lemma RunPlus(q: State, s: string)
    requires (q.Name? || q.Opened?) && Matches(Plus(RUN), s)
    ensures Closable(Run(q, s))
  {
    var l, r := SplitCat(RUN, Star(RUN), s);
    RunConcat(q, l, r);
    RunOne(q, AttrOrSpace, l);
    RunXs(Run(q, l), r);
  }

  lemma RunClosed(q: State, s: string)
    requires (q.Name? || q.Opened?) && Matches(CLOSED, s)
    ensures Run(q, s) == Name(false)
  {
    var run, close := SplitCat(Plus(RUN), One(Just(']')), s);
    RunConcat(q, run, close);
    RunPlus(q, run);
    RunOne(Run(q, run), Just(']'), close);
  }

  lemma {:induction false} RunCloseds(s: string)
    requires Matches(Star(CLOSED), s)
    ensures Run(Name(false), s) == Name(false)
    decreases |s|
  {
    if s != [] {
      var l, r := SplitStar(CLOSED, s);
      RunConcat(Name(false), l, r);
      RunClosed(Name(false), l);
      RunCloseds(r);
    }
  }

  lemma RunGroup(q: State, s: string)
    requires q.Name? && Matches(GROUP, s)
    ensures Run(q, s).Name?
  {
    var o, t := SplitCat(Star(OPENED), Cat(Plus(CLOSED), Star(ATTR)), s);
    var u, a := SplitCat(Plus(CLOSED), Star(ATTR), t);
    var l, r := SplitCat(CLOSED, Star(CLOSED), u);
    RunConcat(q, o, t);
    RunOpened(q, o);
    var p := Run(q, o);
    RunConcat(p, u, a);
    RunConcat(p, l, r);
    RunClosed(p, l);
    RunCloseds(r);
    RunAttrs(Name(false), a);
  }

  lemma {:induction false} RunGroups(q: State, s: string)
    requires q.Name? && Matches(Star(GROUP), s)
    ensures Run(q, s).Name?
    decreases |s|
  {
    if s != [] {
      var l, r := SplitStar(GROUP, s);
      RunConcat(q, l, r);
      RunGroup(q, l);
      RunGroups(Run(q, l), r);
    }
  }

  // ---- Accepted texts are matched ----

  /** What the text read so far looks like in each state: a matched token, or a
      matched token followed by a part of one more group. */
  ghost predicate Reached(q: State, s: string) {
    match q
    case Start => s == []
    case Name(some) =>
      && Matches(AttributeToken, s)
      && (some ==> exists k :: 0 < k < |s| && Matches(AttributeToken, s[..k]) && Matches(Plus(RUN), s[k..]))
    case Opened(some) => exists k: nat, m: nat :: OpenedAt(s, some, k, m)
    case Spaced => exists k :: 0 < k < |s| && Matches(AttributeToken, s[..k]) && Matches(Plus(RUN), s[k..])
    case Dead => true
  }

  /** A token up to `k`, complete opened parts and one `[` up to `m`, then a run of RUN. */
  ghost predicate OpenedAt(s: string, some: bool, k: nat, m: nat) {
    && 0 < k < m <= |s|
    && Matches(AttributeToken, s[..k]) && s[m - 1] == '['
    && Matches(Star(OPENED), s[k..m - 1]) && Matches(Star(RUN), s[m..])
    && some == (m < |s|)
  }

  lemma AppendGroup(s: string, g: string)
    requires Matches(AttributeToken, s) && Matches(GROUP, g)
    ensures Matches(AttributeToken, s + g)
  {
    AppendLast(One(NameStart), Star(ATTR), GROUP, s, g);
  }

  /** A group with no part opened, from a run of RUN+. */
  lemma ClosedIsGroup(o: string, run: string)
    requires Matches(Star(OPENED), o) && Matches(Plus(RUN), run)
    ensures Matches(GROUP, o + (run + "]"))
  {
    MatchClosed(run);
    var c := run + "]";
    MatchCat(Plus(CLOSED), Star(ATTR), c, "");
    assert c + "" == c;
    MatchCat(Star(OPENED), Cat(Plus(CLOSED), Star(ATTR)), o, c);
  }

  lemma AppendAttr(s: string, c: char)
    requires Matches(AttributeToken, s) && IsAttrChar(c)
    ensures Matches(AttributeToken, s + [c])
  {
    var n, a, gs := SplitCat3(One(NameStart), Star(ATTR), Star(GROUP), s);
    if gs == [] {
      MatchStarAppend(ATTR, a, [c]);
      MatchCat3(One(NameStart), Star(ATTR), Star(GROUP), n, a + [c], gs);
      assert n + (a + [c]) + gs == s + [c];
    } else {
      AppendAttrToGroups(gs, c);
      MatchCat3(One(NameStart), Star(ATTR), Star(GROUP), n, a, gs + [c]);
      assert n + a + (gs + [c]) == s + [c];
    }
  }

  lemma AppendAttrToGroup(g: string, c: char)
    requires Matches(GROUP, g) && IsAttrChar(c)
    ensures Matches(GROUP, g + [c])
  {
    AppendLast(Star(OPENED), Plus(CLOSED), ATTR, g, [c]);
  }

  lemma {:induction false} AppendAttrToGroups(gs: string, c: char)
    requires Matches(Star(GROUP), gs) && gs != [] && IsAttrChar(c)
    ensures Matches(Star(GROUP), gs + [c])
    decreases |gs|
  {
    var l, r := SplitStar(GROUP, gs);
    if r == [] {
      AppendAttrToGroup(l, c);
      assert gs == l;
      MatchStarAppend(GROUP, "", gs + [c]);
      assert "" + (gs + [c]) == gs + [c];
    } else {
      AppendAttrToGroups(r, c);
      MatchStarAppend(GROUP, "", l);
      assert "" + l == l;
      MatchStarConcat(GROUP, l, r + [c]);
      assert l + (r + [c]) == gs + [c];
    }
  }

  lemma {:induction false} ReachedByRun(s: string)
    ensures Reached(Run(Start, s), s)
    decreases |s|
  {
    if s != [] {
      ReachedByRun(s[..|s| - 1]);
      ReachedStep(Run(Start, s[..|s| - 1]), s[..|s| - 1], s[|s| - 1]);
      assert s[..|s| - 1] + [s[|s| - 1]] == s;
    }
  }

  lemma PlusAppend(run: string, c: char)
    requires Matches(Plus(RUN), run) && InClass(AttrOrSpace, c)
    ensures Matches(Plus(RUN), run + [c])
  {
    var k :| 0 <= k <= |run| && Matches(RUN, run[..k]) && Matches(Star(RUN), run[k..]);
    MatchStarAppend(RUN, run[k..], [c]);
    MatchCat(RUN, Star(RUN), run[..k], run[k..] + [c]);
    assert run[..k] + (run[k..] + [c]) == run + [c];
  }

  lemma ReachedStep(q: State, s: string, c: char)
    requires Reached(q, s)
    ensures Reached(Step(q, c), s + [c])
  {
    var u := s + [c];
    match q
    case Start =>
      if IsNameStart(c) {
        MatchCat(Star(ATTR), Star(GROUP), "", "");
        MatchCat(One(NameStart), Cat(Star(ATTR), Star(GROUP)), [c], "" + "");
        assert [c] + ("" + "") == u;
      }
    case Name(some) => StepFromName(some, s, c);
    case Opened(some) => StepFromOpened(some, s, c);
    case Spaced =>
      var k :| 0 < k < |s| && Matches(AttributeToken, s[..k]) && Matches(Plus(RUN), s[k..]);
      CloseRun(s, k, c);
    case Dead =>
  }

  /** From a run of RUN+ after a token, a character of RUN prolongs the run and `]` ends a group. */
  lemma CloseRun(s: string, k: nat, c: char)
    requires 0 < k < |s| && Matches(AttributeToken, s[..k]) && Matches(Plus(RUN), s[k..])
    ensures InClass(AttrOrSpace, c) ==> Reached(Spaced, s + [c])
    ensures c == ']' ==> Reached(Name(false), s + [c])
  {
    Rejoin(s, k, c);
    if InClass(AttrOrSpace, c) {
      PlusAppend(s[k..], c);
    } else if c == ']' {
      GroupAfter(s[..k], s[k..]);
    }
  }

  lemma Rejoin(s: string, k: nat, c: char)
    requires k <= |s|
    ensures (s + [c])[..k] == s[..k] && (s + [c])[k..] == s[k..] + [c] && s[..k] + (s[k..] + [c]) == s + [c]
  {
  }

  lemma GroupAfter(token: string, run: string)
    requires Matches(AttributeToken, token) && Matches(Plus(RUN), run)
    ensures Matches(AttributeToken, token + (run + "]"))
  {
    ClosedIsGroup("", run);
    assert "" + (run + "]") == run + "]";
    AppendGroup(token, run + "]");
  }

  lemma TokenNotEmpty(s: string)
    requires Matches(AttributeToken, s)
    ensures s != []
  {
    var n, t := SplitCat(One(NameStart), Cat(Star(ATTR), Star(GROUP)), s);
  }

  lemma StepFromName(some: bool, s: string, c: char)
    requires Reached(Name(some), s)
    ensures Reached(Step(Name(some), c), s + [c])
  {
    var u := s + [c];
    assert u[..|s|] == s && u[|s|..] == [c];
    TokenNotEmpty(s);
    if IsAttrChar(c) || c == ' ' {
      MatchCat(RUN, Star(RUN), [c], "");
      assert [c] + "" == u[|s|..];
      if IsAttrChar(c) { AppendAttr(s, c); }
    } else if c == '[' {
      assert OpenedAt(u, false, |s|, |u|);
    } else if c == ']' && some {
      var k :| 0 < k < |s| && Matches(AttributeToken, s[..k]) && Matches(Plus(RUN), s[k..]);
      CloseRun(s, k, c);
    }
  }

  lemma StepFromOpened(some: bool, s: string, c: char)
    requires Reached(Opened(some), s)
    ensures Reached(Step(Opened(some), c), s + [c])
  {
    var u := s + [c];
    var k: nat, m: nat :| OpenedAt(s, some, k, m);
    if IsAttrChar(c) || c == ' ' {
      MatchStarAppend(RUN, s[m..], [c]);
      OpenedSlices(s, k, m, c);
      assert OpenedAt(u, true, k, m);
    } else if c == '[' {
      OpenedEnds(s[k..m - 1], s[m..]);
      OpenedSlices(s, k, m, c);
      assert OpenedAt(u, false, k, |u|);
    } else if c == ']' && some {
      CloseOpened(s, k, m);
    }
  }

  lemma OpenedSlices(s: string, k: nat, m: nat, c: char)
    requires k < m <= |s| && s[m - 1] == '['
    ensures var u := s + [c];
      && u[..k] == s[..k] && u[k..m - 1] == s[k..m - 1] && u[m..] == s[m..] + [c] && u[m - 1] == '['
      && u[k..|u| - 1] == s[k..m - 1] + ("[" + s[m..]) && u[|u| - 1] == c && u[|u|..] == ""
  {
  }

  /** One more opened part after some. */
  lemma OpenedEnds(o: string, run: string)
    requires Matches(Star(OPENED), o) && Matches(Star(RUN), run)
    ensures Matches(Star(OPENED), o + ("[" + run))
  {
    MatchCat(One(Just('[')), Star(RUN), "[", run);
    MatchStarAppend(OPENED, o, "[" + run);
  }

  lemma CloseOpened(s: string, k: nat, m: nat)
    requires OpenedAt(s, true, k, m)
    ensures Matches(AttributeToken, s + "]")
  {
    var o, run := s[k..m - 1], s[m..];
    StarIsPlus(run);
    OpenedGroupAfter(s[..k], o, run);
    OpenedText(s, k, m);
  }

  lemma OpenedText(s: string, k: nat, m: nat)
    requires k < m <= |s| && s[m - 1] == '['
    ensures s[..k] + (s[k..m - 1] + ("[" + "") + (s[m..] + "]")) == s + "]"
  {
  }

  lemma OpenedGroupAfter(token: string, o: string, run: string)
    requires Matches(AttributeToken, token) && Matches(Star(OPENED), o) && Matches(Plus(RUN), run)
    ensures Matches(AttributeToken, token + (o + ("[" + "") + (run + "]")))
  {
    OpenedEnds(o, "");
    ClosedIsGroup(o + ("[" + ""), run);
    AppendGroup(token, o + ("[" + "") + (run + "]"));
  }

  /** The automaton accepts exactly the texts the expression matches. */
  lemma AcceptsIffMatches(s: string)
    ensures Accepts(s) <==> Matches(AttributeToken, s)
  {
    ReachedByRun(s);
    if Matches(AttributeToken, s) {
      var n, t := SplitCat(One(NameStart), Cat(Star(ATTR), Star(GROUP)), s);
      var a, gs := SplitCat(Star(ATTR), Star(GROUP), t);
      RunConcat(Start, n, t);
      RunOne(Start, NameStart, n);
      RunConcat(Name(false), a, gs);
      RunAttrs(Name(false), a);
      RunGroups(Run(Name(false), a), gs);
    }
  }

  // ---- What the scanner's tables hold ----

  predicate InRun(c: char) { IsAttrChar(c) || c == ' ' }

  /** `k` is the first index at or after `j` whose character is outside RUN. */
  ghost predicate IsRunEnd(s: string, j: nat, k: int) {
    && j <= k <= |s|
    && (forall m :: j <= m < k ==> InRun(s[m]))
    && (k < |s| ==> !InRun(s[k]))
  }

  /** `e` ends the bracketed part whose `[` stands before `j`; -1 when no text from
      `j` on ends it. */
  ghost predicate IsOpenEnd(s: string, j: nat, e: int)
    requires j <= |s|
  {
    if e < 0 then e == -1 && forall m :: j <= m <= |s| ==> !Run(Opened(false), s[j..m]).Name?
    else j < e <= |s| && Run(Opened(false), s[j..e]) == Name(false)
  }

  /** Reading a slice in two parts. */
  lemma RunSlice(q: State, s: string, a: nat, b: nat, c: nat)
    requires a <= b <= c <= |s|
    ensures Run(q, s[a..c]) == Run(Run(q, s[a..b]), s[b..c])
  {
    assert s[a..c] == s[a..b] + s[b..c];
    RunConcat(q, s[a..b], s[b..c]);
  }

  /** Reading one character of a slice. */
  lemma RunSliceStep(q: State, s: string, a: nat, b: nat)
    requires a <= b < |s|
    ensures Run(q, s[a..b + 1]) == Step(Run(q, s[a..b]), s[b])
  {
    assert s[a..b + 1][..b - a] == s[a..b];
  }

  /** Through a run of RUN the automaton stays where it is. */
  lemma {:induction false} RunThrough(q: State, s: string, a: nat, b: nat)
    requires a <= b <= |s| && (q == Spaced || q == Opened(false))
    requires forall m :: a <= m < b ==> InRun(s[m])
    ensures Run(q, s[a..b]) == (if q == Spaced then Spaced else Opened(b > a))
    decreases b
  {
    if a < b {
      RunThrough(q, s, a, b - 1);
      RunSliceStep(q, s, a, b - 1);
    } else {
      assert s[a..b] == [];
    }
  }

  /** Past the end of a run of RUN that `p` closes nowhere, nothing is accepted. */
  lemma NothingAfterRun(q: State, s: string, a: nat, k: nat)
    requires q == Spaced || q == Opened(false)
    requires a <= |s| && IsRunEnd(s, a, k)
    requires k < |s| ==> Step(Run(q, s[a..k]), s[k]) == Dead
    ensures forall m :: a <= m <= |s| ==> !Run(q, s[a..m]).Name?
  {
    forall m | a <= m <= |s| ensures !Run(q, s[a..m]).Name? {
      if m <= k {
        RunThrough(q, s, a, m);
      } else {
        RunSliceStep(q, s, a, k);
        RunSlice(q, s, a, k + 1, m);
        DeadStays(s[k + 1..m]);
      }
    }
  }

  /** A run of RUN after `[` that ends at another `[` is closed where that one is. */
  lemma OpenEndThrough(s: string, j: nat, k: nat, e: int)
    requires j <= |s| && IsRunEnd(s, j, k) && k < |s| && s[k] == '[' && IsOpenEnd(s, k + 1, e)
    ensures IsOpenEnd(s, j, e)
  {
    RunThrough(Opened(false), s, j, k);
    RunSliceStep(Opened(false), s, j, k);
    if e < 0 {
      forall m | j <= m <= |s| ensures !Run(Opened(false), s[j..m]).Name? {
        if m <= k {
          RunThrough(Opened(false), s, j, m);
        } else {
          RunSlice(Opened(false), s, j, k + 1, m);
        }
      }
    } else {
      RunSlice(Opened(false), s, j, k + 1, e);
    }
  }

  /** The table entry of `j`, from the end of its run and the entries after it. */
  lemma OpenEndEntry(s: string, j: nat, k: nat, next: int, e: int)
    requires j <= |s| && IsRunEnd(s, j, k)
    requires k < |s| && s[k] == '[' ==> IsOpenEnd(s, k + 1, next)
    requires e == if k == |s| then -1
                  else if s[k] == '[' then next
                  else if s[k] == ']' && k > j then k + 1
                  else -1
    ensures IsOpenEnd(s, j, e)
  {
    RunThrough(Opened(false), s, j, k);
    if k < |s| && s[k] == '[' {
      OpenEndThrough(s, j, k, next);
    } else if k < |s| && s[k] == ']' && k > j {
      RunSliceStep(Opened(false), s, j, k);
    } else {
      NothingAfterRun(Opened(false), s, j, k);
    }
  }

  // ---- The scanner ----

  class AttrScanner {
    const s: string
    const runEnd: array<int>
    const openEnd: array<int>

    ghost predicate Valid()
      reads runEnd, openEnd
    {
      && runEnd.Length == openEnd.Length == |s| + 1
      && (forall j :: 0 <= j <= |s| ==> IsRunEnd(s, j, runEnd[j]))
      && (forall j :: 0 <= j <= |s| ==> IsOpenEnd(s, j, openEnd[j]))
    }

    /** Builds both tables from the end of the text. */
    constructor (text: string)
      ensures Valid() && s == text && fresh(runEnd) && fresh(openEnd)
    {
      var n := |text|;
      s := text;
      runEnd := new int[n + 1];
      openEnd := new int[n + 1];
      new;
      runEnd[n] := n;
      openEnd[n] := -1;
      var j := n - 1;
      while j >= 0
        invariant -1 <= j < n
        invariant openEnd[n] == -1
        invariant forall m :: j < m <= n ==> IsRunEnd(text, m, runEnd[m])
      {
        runEnd[j] := if InRun(text[j]) then runEnd[j + 1] else j;
        j := j - 1;
      }
      OpenEndEntry(text, n, n, -1, -1);
      j := n - 1;
      while j >= 0
        invariant -1 <= j < n
        invariant forall m :: 0 <= m <= n ==> IsRunEnd(text, m, runEnd[m])
        invariant forall m :: j < m <= n ==> IsOpenEnd(text, m, openEnd[m])
      {
        var k := runEnd[j];
        assert IsRunEnd(text, j, k);
        openEnd[j] :=
          if k == n then -1
          else if text[k] == '[' then openEnd[k + 1]
          else if text[k] == ']' && k > j then k + 1
          else -1;
        OpenEndEntry(text, j, k, if k < n then openEnd[k + 1] else -1, openEnd[j]);
        j := j - 1;
      }
    }

    /** The end of the part that the character at `j` starts, when it ends in a longer
        token, and -1 when no longer token is accepted. */
    method Next(ghost i: nat, j: nat, seg: nat) returns (next: int)
      requires Valid() && i < seg <= j < |s| && !IsAttrChar(s[j])
      requires Run(Start, s[i..j]) == Name(j > seg)
      ensures next < 0 ==> forall m :: j < m <= |s| ==> !Run(Start, s[i..m]).Name?
      ensures next >= 0 ==> j < next <= |s| && Run(Start, s[i..next]) == Name(false)
    {
      next := -1;
      if s[j] == ' ' {
        var k := runEnd[j];
        assert IsRunEnd(s, j, k);
        if k < |s| && s[k] == ']' { next := k + 1; }
        AfterSpace(s, i, j, k);
      } else if s[j] == '[' {
        next := openEnd[j + 1];
        AfterOpen(s, i, j, next);
      } else if s[j] == ']' && j > seg {
        next := j + 1;
        RunSliceStep(Start, s, i, j);
      } else {
        AfterDead(s, i, j);
      }
    }

    /** The length of the attribute token at `i`: that of the longest match of
        `AttributeToken` there, and 0 when there is none. */
    method TokenLen(i: nat) returns (n: nat)
      requires Valid()
      ensures IsLongestMatch(s, i, n)
    {
      if i >= |s| || !IsNameStart(s[i]) {
        NoTokenAt(s, i);
        return 0;
      }
      var j: nat, seg: nat := i + 1, i + 1;
      FirstOfName(s, i);
      while true
        invariant AtName(s, i, seg, j)
        decreases |s| - j
      {
        ghost var from := j;
        while j < |s| && IsAttrChar(s[j])
          invariant AtName(s, i, seg, j) && from <= j
        {
          MoreOfName(s, i, seg, j);
          j := j + 1;
        }
        var next := -1;
        if j < |s| { next := Next(i, j, seg); }
        if next < 0 {
          LongestAt(s, i, j);
          return j - i;
        }
        j, seg := next, next;
      }
    }
  }

  // ---- The cases of the scan ----

  /** The text from `i` to `j` is a token so far, its last part started at `seg`. */
  ghost predicate AtName(s: string, i: nat, seg: nat, j: nat) {
    i < seg <= j <= |s| && Run(Start, s[i..j]) == Name(j > seg)
  }

  lemma FirstOfName(s: string, i: nat)
    requires i < |s| && IsNameStart(s[i])
    ensures AtName(s, i, i + 1, i + 1)
  {
    RunSliceStep(Start, s, i, i);
    assert s[i..i] == [];
  }

  lemma MoreOfName(s: string, i: nat, seg: nat, j: nat)
    requires AtName(s, i, seg, j) && j < |s| && IsAttrChar(s[j])
    ensures AtName(s, i, seg, j + 1)
  {
    RunSliceStep(Start, s, i, j);
  }

  lemma NoTokenAt(s: string, i: nat)
    requires i >= |s| || !IsNameStart(s[i])
    ensures IsLongestMatch(s, i, 0)
  {
    forall j | i < j <= |s| ensures !Matches(AttributeToken, s[i..j]) {
      assert s[i..i] == [];
      RunSliceStep(Start, s, i, i);
      RunSlice(Start, s, i, i + 1, j);
      DeadStays(s[i + 1..j]);
      AcceptsIffMatches(s[i..j]);
    }
  }

  /** A token that ends at `j` is the longest when no later end is accepted. */
  lemma LongestAt(s: string, i: nat, j: nat)
    requires i < j <= |s| && Run(Start, s[i..j]).Name?
    requires forall m :: j < m <= |s| ==> !Run(Start, s[i..m]).Name?
    ensures IsLongestMatch(s, i, j - i)
  {
    AcceptsIffMatches(s[i..j]);
    forall m | j < m <= |s| ensures !Matches(AttributeToken, s[i..m]) {
      AcceptsIffMatches(s[i..m]);
    }
  }

  lemma AfterDead(s: string, i: nat, j: nat)
    requires i <= j < |s| && Step(Run(Start, s[i..j]), s[j]) == Dead
    ensures forall m :: j < m <= |s| ==> !Run(Start, s[i..m]).Name?
  {
    forall m | j < m <= |s| ensures !Run(Start, s[i..m]).Name? {
      RunSliceStep(Start, s, i, j);
      RunSlice(Start, s, i, j + 1, m);
      DeadStays(s[j + 1..m]);
    }
  }

  lemma AfterSpace(s: string, i: nat, j: nat, k: nat)
    requires i < j < |s| && Run(Start, s[i..j]).Name? && s[j] == ' ' && IsRunEnd(s, j, k)
    ensures if k < |s| && s[k] == ']' then Run(Start, s[i..k + 1]) == Name(false)
            else forall m :: j < m <= |s| ==> !Run(Start, s[i..m]).Name?
  {
    RunSliceStep(Start, s, i, j);
    RunThrough(Spaced, s, j + 1, k);
    if k < |s| && s[k] == ']' {
      RunSlice(Start, s, i, j + 1, k);
      RunSliceStep(Start, s, i, k);
    } else {
      NoneAfterSpace(s, i, j, k);
    }
  }

  lemma NoneAfterSpace(s: string, i: nat, j: nat, k: nat)
    requires i < j < |s| && Run(Start, s[i..j + 1]) == Spaced && IsRunEnd(s, j + 1, k) && !(k < |s| && s[k] == ']')
    ensures forall m :: j < m <= |s| ==> !Run(Start, s[i..m]).Name?
  {
    RunThrough(Spaced, s, j + 1, k);
    NothingAfterRun(Spaced, s, j + 1, k);
    forall m | j < m <= |s| ensures !Run(Start, s[i..m]).Name? { RunSlice(Start, s, i, j + 1, m); }
  }

  lemma AfterOpen(s: string, i: nat, j: nat, e: int)
    requires i < j < |s| && Run(Start, s[i..j]).Name? && s[j] == '[' && IsOpenEnd(s, j + 1, e)
    ensures if e >= 0 then j < e <= |s| && Run(Start, s[i..e]) == Name(false)
            else forall m :: j < m <= |s| ==> !Run(Start, s[i..m]).Name?
  {
    RunSliceStep(Start, s, i, j);
    if e >= 0 {
      RunSlice(Start, s, i, j + 1, e);
    } else {
      forall m | j < m <= |s| ensures !Run(Start, s[i..m]).Name? {
        RunSlice(Start, s, i, j + 1, m);
      }
    }
  }
}
