/** What cpplint's nesting state is for: braces, heads, parentheses and conditionals, told by counting. */
module NestingLaws {
  import opened Options
  import opened Nesting

  // ---- braces

  function Rise(k: Token): int {
    if k.Open? then 1 else if k == Close then -1 else 0
  }

  /** Opening braces less closing braces. */
  function Depth(ks: seq<Token>): int {
    if ks == [] then 0 else Depth(ks[..|ks| - 1]) + Rise(ks[|ks| - 1])
  }

  /** The least depth on the way. */
  function Lowest(ks: seq<Token>): (l: int)
    ensures l <= 0 && l <= Depth(ks)
  {
    if ks == [] then 0
    else
      var l := Lowest(ks[..|ks| - 1]);
      if Depth(ks) < l then Depth(ks) else l
  }

  /** The brace at `j` opens from this depth and stays open. */
  ghost predicate StaysOpen(ks: seq<Token>, j: nat, depth: int) {
    j < |ks| && ks[j].Open? && Depth(ks[..j]) == depth && forall m: nat {:trigger ks[..m]} :: j < m <= |ks| ==> Depth(ks[..m]) > depth
  }

  /** How many blocks of a stack are never closed. */
  function Kept(s: seq<Info>, ks: seq<Token>): (n: nat)
    ensures n <= |s|
  {
    if |s| + Lowest(ks) < 0 then 0 else |s| + Lowest(ks)
  }

  /** The blocks that come to be on top have seen their braces. */
  predicate Complete(s: seq<Info>, from: int) {
    forall i {:trigger s[i]} :: 0 <= i < |s| && from <= i ==> s[i].seenOpenBrace
  }

  /** What an opening brace on line `number` puts on the stack: extern "C" or not, and if not, inline assembly or not. */
  ghost predicate BlockOf(b: Info, k: Token, number: int) {
    && k.Open? && b.start == number && b.seenOpenBrace && b.openParentheses == 0 && b.access == "" && !b.isDerived
    && b.kind == (if k.externC then ExternCBlock else OtherBlock)
    && b.inlineAsm == (if k.asm && !k.externC then BlockAsm else NoAsm)
  }

  /** Block `i` of `r` is the one of the brace that stays open at its height, `n` blocks being kept. */
  ghost predicate OpenedHere(r: seq<Info>, i: int, ks: seq<Token>, n: int, number: int)
    requires 0 <= i < |r|
  {
    exists j: nat :: StaysOpen(ks, j, Lowest(ks) + i - n) && BlockOf(r[i], ks[j], number)
  }

  ghost predicate Bracketed(s: seq<Info>, ks: seq<Token>, number: int, r: seq<Info>) {
    var n := Kept(s, ks);
    && |r| == n + Depth(ks) - Lowest(ks) && r[..n] == s[..n]
    && forall i {:trigger OpenedHere(r, i, ks, n, number)} :: n <= i < |r| ==> OpenedHere(r, i, ks, n, number)
  }

  /** Each closing brace takes away the block of its opening brace, on this line or on the stack, and no other; what
      is left on top are the blocks of the opening braces that stay open, in their order. */
  lemma {:induction false} Brackets(s: seq<Info>, ks: seq<Token>, number: int)
    requires Complete(s, Kept(s, ks) - 1)
    ensures Bracketed(s, ks, number, ConsumeAll(s, ks, number))
  {
    if ks == [] {
      assert s[..|s|] == s;
    } else {
      var ks' := ks[..|ks| - 1];
      Brackets(s, ks', number);
      BracketStep(s, ks, number, ConsumeAll(s, ks', number));
    }
  }

  lemma BracketStep(s: seq<Info>, ks: seq<Token>, number: int, r: seq<Info>)
    requires ks != [] && Complete(s, Kept(s, ks) - 1) && Bracketed(s, ks[..|ks| - 1], number, r)
    ensures Bracketed(s, ks, number, Consume(r, ks[|ks| - 1], number))
  {
    hide StaysOpen, OpenedHere;
    var ks', k := ks[..|ks| - 1], ks[|ks| - 1];
    var n, n', r' := Kept(s, ks'), Kept(s, ks), Consume(r, k, number);
    TopSeen(s, ks', number, r, n');
    assert |r'| == n' + Depth(ks) - Lowest(ks) && r'[..n'] == s[..n'];
    forall i {:trigger OpenedHere(r', i, ks, n', number)} | n' <= i < |r'|
      ensures OpenedHere(r', i, ks, n', number)
    {
      if i < |r| {
        assert OpenedHere(r, i, ks', n, number);
        StillHere(r, r', i, ks, n, number);
      } else {
        NewlyOpen(ks);
        assert BlockOf(r'[i], k, number) && Lowest(ks) + i - n' == Depth(ks');
        HereAt(r', i, ks, n', number, |ks| - 1);
      }
    }
  }

  lemma HereAt(r: seq<Info>, i: int, ks: seq<Token>, n: int, number: int, j: nat)
    requires 0 <= i < |r| && StaysOpen(ks, j, Lowest(ks) + i - n) && BlockOf(r[i], ks[j], number)
    ensures OpenedHere(r, i, ks, n, number)
  {}

  lemma TopSeen(s: seq<Info>, ks: seq<Token>, number: int, r: seq<Info>, from: int)
    requires Complete(s, from - 1) && from <= Kept(s, ks) && Bracketed(s, ks, number, r)
    ensures SeenOpenBrace(r)
  {
    hide StaysOpen;
    var n := Kept(s, ks);
    if |r| > n {
      assert OpenedHere(r, |r| - 1, ks, n, number);
    } else if n > 0 {
      assert r[n - 1] == s[n - 1];
    }
  }

  lemma StillHere(r: seq<Info>, r': seq<Info>, i: int, ks: seq<Token>, n: int, number: int)
    requires ks != [] && 0 <= i < |r| && i < |r'| && r'[i] == r[i] && OpenedHere(r, i, ks[..|ks| - 1], n, number)
    requires Lowest(ks) == Lowest(ks[..|ks| - 1]) && Depth(ks) > Lowest(ks) + i - n
    ensures OpenedHere(r', i, ks, n, number)
  {
    hide Depth, Lowest, BlockOf;
    var ks', d := ks[..|ks| - 1], Lowest(ks) + i - n;
    var j: nat :| StaysOpen(ks', j, d) && BlockOf(r[i], ks'[j], number);
    StillOpen(ks, j, d);
    HereAt(r', i, ks, n, number, j);
  }

  lemma StillOpen(ks: seq<Token>, j: nat, d: int)
    requires ks != [] && StaysOpen(ks[..|ks| - 1], j, d) && Depth(ks) > d
    ensures StaysOpen(ks, j, d) && ks[j] == ks[..|ks| - 1][j]
  {
    var ks' := ks[..|ks| - 1];
    assert ks'[..j] == ks[..j];
    forall m: nat {:trigger ks[..m]} | j < m <= |ks|
      ensures Depth(ks[..m]) > d
    {
      if m < |ks| {
        assert ks'[..m] == ks[..m];
      } else {
        assert ks[..m] == ks;
      }
    }
  }

  lemma NewlyOpen(ks: seq<Token>)
    requires ks != [] && ks[|ks| - 1].Open?
    ensures StaysOpen(ks, |ks| - 1, Depth(ks[..|ks| - 1]))
  {
    assert ks[..|ks|] == ks;
  }

  /** Every closing brace has its opening brace before it, and every opening brace has its closing brace. */
  ghost predicate Balanced(ks: seq<Token>) {
    Depth(ks) == 0 && forall m: nat {:trigger ks[..m]} :: m <= |ks| ==> Depth(ks[..m]) >= 0
  }

  lemma {:induction false} NeverBelow(ks: seq<Token>)
    requires forall m: nat {:trigger ks[..m]} :: m <= |ks| ==> Depth(ks[..m]) >= 0
    ensures Lowest(ks) == 0
  {
    if ks != [] {
      var ks' := ks[..|ks| - 1];
      forall m: nat {:trigger ks'[..m]} | m <= |ks'|
        ensures Depth(ks'[..m]) >= 0
      {
        assert ks'[..m] == ks[..m];
      }
      NeverBelow(ks');
      assert ks[..|ks|] == ks;
    }
  }

  /** Where nothing waits for its brace, balanced code leaves the stack as it was. */
  lemma BalancedKeeps(s: seq<Info>, ks: seq<Token>, number: int)
    requires Balanced(ks) && SeenOpenBrace(s)
    ensures ConsumeAll(s, ks, number) == s
  {
    NeverBelow(ks);
    Brackets(s, ks, number);
    var r := ConsumeAll(s, ks, number);
    assert r[..|s|] == r && s[..|s|] == s;
  }

  lemma {:induction false} InTwoParts(s: seq<Info>, a: seq<Token>, b: seq<Token>, number: int)
    ensures ConsumeAll(s, a + b, number) == ConsumeAll(ConsumeAll(s, a, number), b, number)
    decreases |b|
  {
    if b == [] {
      assert a + b == a;
    } else {
      assert (a + b)[..|a + b| - 1] == a + b[..|b| - 1];
      InTwoParts(s, a, b[..|b| - 1], number);
    }
  }

  lemma OneToken(s: seq<Info>, k: Token, number: int)
    ensures ConsumeAll(s, [k], number) == Consume(s, k, number)
  {
    assert ConsumeAll(s, [k][..0], number) == s;
  }

  /** A block that waits gets the next opening brace, and goes with the closing brace for that one; a semicolon or a
      parenthesis before the brace takes it away. */
  lemma WaitingBlock(s: seq<Info>, b: Info, k: Token, ks: seq<Token>, number: int)
    requires !b.seenOpenBrace && Balanced(ks)
    ensures k.Open? ==> ConsumeAll(s + [b], [k] + ks, number) == s + [b.(seenOpenBrace := true)]
    ensures k.Open? ==> ConsumeAll(s + [b], [k] + ks + [Close], number) == s
    ensures !k.Open? ==> ConsumeAll(s + [b], [k], number) == s
  {
    OneToken(s + [b], k, number);
    assert (s + [b])[..|s|] == s;
    if k.Open? {
      var t := s + [b.(seenOpenBrace := true)];
      InTwoParts(s + [b], [k], ks, number);
      BalancedKeeps(t, ks, number);
      InTwoParts(s + [b], [k] + ks, [Close], number);
      OneToken(t, Close, number);
      assert t[..|s|] == s;
    }
  }

  // ---- lines

  /** Up to where they start, and what is inside their heads and parentheses. */
  predicate Alike(b: Info, b': Info) {
    b.kind == b'.kind && b.seenOpenBrace == b'.seenOpenBrace
  }

  predicate Like(s: seq<Info>, t: seq<Info>) {
    |s| == |t| && forall i {:trigger s[i]} {:trigger t[i]} :: 0 <= i < |s| ==> Alike(s[i], t[i])
  }

  /** The stack when the braces of the line are all that is left. */
  function AfterHead(s: seq<Info>, line: Line): seq<Info> {
    Note(Declare(PushNamespaces(Count(s, line), line.namespaces, line.number), line), line)
  }

  lemma {:induction false} NamespacesOnTop(s: seq<Info>, ns: seq<Namespace>, number: int)
    ensures var r := PushNamespaces(s, ns, number);
      && |r| == |s| + |ns| && r[..|s|] == s
      && forall i {:trigger ns[i]} :: 0 <= i < |ns| ==> r[|s| + i] == Info(NamespaceBlock(ns[i].name), number, ns[i].brace, 0, NoAsm, "", false)
  {
    if ns != [] {
      var n := |ns| - 1;
      NamespacesOnTop(s, ns[..n], number);
      var r' := PushNamespaces(s, ns[..n], number);
      assert (r' + [NewNamespace(ns[n], number)])[..|s|] == r'[..|s|];
      forall i {:trigger ns[i]} | 0 <= i < |ns|
        ensures PushNamespaces(s, ns, number)[|s| + i] == Info(NamespaceBlock(ns[i].name), number, ns[i].brace, 0, NoAsm, "", false)
      {
        if i < n {
          assert ns[..n][i] == ns[i];
        }
      }
    } else {
      assert s[..|s|] == s;
    }
  }

  /** Whether a parenthesis is open behind the line, on its innermost block. */
  function Unclosed(s: seq<Info>, line: Line): int {
    if line.namespaces != [] || s == [] then 0 else s[|s| - 1].openParentheses + line.depthChange
  }

  /** The head of a line puts its namespaces on the stack, in their order, and a class unless it is in parentheses or
      in a template's arguments; of the blocks below only the top one can change, and not in kind. */
  lemma HeadOfLine(s: seq<Info>, line: Line)
    ensures var h, n, d := AfterHead(s, line), |s| + |line.namespaces|, line.declaration;
      var declares := d.Some? && !d.value.inTemplate && Unclosed(s, line) == 0;
      && |h| == (if declares then n + 1 else n)
      && Like(h[..|s|], s) && (s != [] ==> h[..|s| - 1] == s[..|s| - 1])
      && (forall i {:trigger line.namespaces[i]} :: 0 <= i < |line.namespaces| ==>
           h[|s| + i] == Info(NamespaceBlock(line.namespaces[i].name), line.number, line.namespaces[i].brace, 0, NoAsm, "", false))
      && (declares ==> h[n] == Info(ClassBlock(d.value.name, d.value.isStruct), line.number, false, 0, NoAsm,
           if line.access.Some? then line.access.value else if d.value.isStruct then "public" else "private", line.bareColon))
  {
    hide PushNamespaces, Declares, Count;
    var p := PushNamespaces(Count(s, line), line.namespaces, line.number);
    CountedOnly(s, line);
    NamespacesOnTop(Count(s, line), line.namespaces, line.number);
    HeadDeclares(s, line);
    NotedOnly(Declare(p, line), line);
    assert p[..|s|] == Count(s, line);
    assert forall i :: 0 <= i < |s| ==> p[i] == Count(s, line)[i];
  }

  lemma CountedOnly(s: seq<Info>, line: Line)
    ensures var c := Count(s, line);
      |c| == |s| && Like(c, s) && forall i :: 0 <= i < |s| - 1 ==> c[i] == s[i]
  {}

  lemma NotedOnly(s: seq<Info>, line: Line)
    ensures var r := Note(s, line);
      |r| == |s| && Like(r, s) && (forall i :: 0 <= i < |s| - 1 ==> r[i] == s[i])
      && (s != [] ==> r[|s| - 1] == Noted(s[|s| - 1], line))
  {}

  lemma HeadDeclares(s: seq<Info>, line: Line)
    ensures var d := line.declaration;
      Declares(PushNamespaces(Count(s, line), line.namespaces, line.number), line)
      <==> d.Some? && !d.value.inTemplate && Unclosed(s, line) == 0
  {
    NamespacesOnTop(Count(s, line), line.namespaces, line.number);
  }

  lemma LikeConsume(s: seq<Info>, t: seq<Info>, k: Token, n: int, m: int)
    requires Like(s, t)
    ensures Like(Consume(s, k, n), Consume(t, k, m))
  {}

  lemma {:induction false} LikeConsumeAll(s: seq<Info>, t: seq<Info>, ks: seq<Token>, n: int, m: int)
    requires Like(s, t)
    ensures Like(ConsumeAll(s, ks, n), ConsumeAll(t, ks, m))
  {
    hide Like, Consume;
    if ks != [] {
      LikeConsumeAll(s, t, ks[..|ks| - 1], n, m);
      LikeConsume(ConsumeAll(s, ks[..|ks| - 1], n), ConsumeAll(t, ks[..|ks| - 1], m), ks[|ks| - 1], n, m);
    }
  }

  lemma LikeTrans(s: seq<Info>, t: seq<Info>, u: seq<Info>)
    requires Like(s, t) && Like(t, u)
    ensures Like(s, u)
  {}

  /** All braces, semicolons and parentheses of some lines. */
  function TokensOf(lines: seq<Line>): seq<Token> {
    if lines == [] then [] else TokensOf(lines[..|lines| - 1]) + lines[|lines| - 1].tokens
  }

  /** No namespace and no class begins on the line. */
  predicate Headless(line: Line) {
    line.namespaces == [] && line.declaration.None?
  }

  lemma LikeLine(s: seq<Info>, t: seq<Info>, line: Line, m: int)
    requires Headless(line) && Like(s, t)
    ensures Like(Ordinary(s, line), ConsumeAll(t, line.tokens, m))
  {
    hide AfterHead, Like;
    HeadOfLine(s, line);
    var h := AfterHead(s, line);
    assert h[..|s|] == h;
    LikeTrans(h, s, t);
    LikeConsumeAll(h, t, line.tokens, line.number, m);
    AllBehindHead(s, line);
  }

  lemma AllBehindHead(s: seq<Info>, line: Line)
    ensures Ordinary(s, line) == ConsumeAll(AfterHead(s, line), line.tokens, line.number)
  {}

  /** However it is broken into lines, code without heads does what its braces, semicolons and parentheses say. */
  lemma {:induction false} LikeLines(s: seq<Info>, t: seq<Info>, lines: seq<Line>, m: int)
    requires Like(s, t) && forall i {:trigger lines[i]} :: 0 <= i < |lines| ==> Headless(lines[i])
    ensures Like(OrdinaryAll(s, lines), ConsumeAll(t, TokensOf(lines), m))
  {
    hide Like, Ordinary, Headless;
    if lines != [] {
      var n := |lines| - 1;
      LikeLines(s, t, lines[..n], m);
      LikeLine(OrdinaryAll(s, lines[..n]), ConsumeAll(t, TokensOf(lines[..n]), m), lines[n], m);
      InTwoParts(t, TokensOf(lines[..n]), lines[n].tokens, m);
    }
  }

  /** Over any lines without heads, exactly the blocks stay that no closing brace on these lines closes, and for each
      opening brace that stays open there is a block on top of them. */
  lemma Lines(s: seq<Info>, lines: seq<Line>)
    requires forall i {:trigger lines[i]} :: 0 <= i < |lines| ==> Headless(lines[i])
    requires Complete(s, Kept(s, TokensOf(lines)) - 1)
    ensures var r, ks := OrdinaryAll(s, lines), TokensOf(lines);
      var n := Kept(s, ks);
      |r| == n + Depth(ks) - Lowest(ks) && Like(r[..n], s[..n]) && Complete(r, n)
  {
    hide StaysOpen, Ordinary, OrdinaryAll, ConsumeAll, TokensOf, Headless, Depth, Lowest;
    var ks := TokensOf(lines);
    assert Like(s, s);
    LikeLines(s, s, lines, 0);
    Brackets(s, ks, 0);
    var r, c, n := OrdinaryAll(s, lines), ConsumeAll(s, ks, 0), Kept(s, ks);
    forall i {:trigger r[i]} | n <= i < |r|
      ensures r[i].seenOpenBrace
    {
      assert OpenedHere(c, i, ks, n, 0) && Alike(r[i], c[i]);
    }
    assert forall i {:trigger r[i]} :: 0 <= i < n ==> c[..n][i] == s[..n][i] && Alike(r[i], c[i]);
  }

  /** The block that a line with one head puts on the stack. */
  ghost predicate OneHead(s: seq<Info>, head: Line, b: Info) {
    && |AfterHead(s, head)| == |s| + 1 && AfterHead(s, head)[|s|] == b
    && (head.declaration.None? || head.namespaces == [])
  }

  lemma HeadOnTop(s: seq<Info>, head: Line, b: Info)
    requires OneHead(s, head, b)
    ensures Like(AfterHead(s, head), s + [b])
  {
    hide AfterHead;
    HeadOfLine(s, head);
    var h := AfterHead(s, head);
    assert forall i {:trigger h[i]} :: 0 <= i < |s| ==> h[..|s|][i] == h[i];
  }

  lemma CompleteBlock(s: seq<Info>, t: seq<Info>, ks: seq<Token>, number: int)
    requires Balanced(ks) && |t| == |s| + 1 && t[..|s|] == s && t[|s|].seenOpenBrace
    ensures ConsumeAll(t, ks, number) == t && ConsumeAll(t, ks + [Close], number) == s
  {
    hide Balanced, ConsumeAll;
    BalancedKeeps(t, ks, number);
    InTwoParts(t, ks, [Close], number);
    OneToken(t, Close, number);
  }

  /** From the head of a namespace or class to its closing brace, on as many lines as it takes, and what balanced
      code follows: the stack is as it was. Up to the brace the block is on top. */
  lemma HeadedCode(s: seq<Info>, head: Line, body: seq<Line>, b: Info, k: Token, ks: seq<Token>)
    requires OneHead(s, head, b) && forall i {:trigger body[i]} :: 0 <= i < |body| ==> Headless(body[i])
    requires Balanced(ks) && (b.seenOpenBrace || k.Open?)
    ensures var inside := (if b.seenOpenBrace then [] else [k]) + ks;
      var r := OrdinaryAll(s, [head] + body);
      && (TokensOf([head] + body) == inside ==> Like(r, s + [b.(seenOpenBrace := true)]))
      && (TokensOf([head] + body) == inside + [Close] ==> Like(r, s))
  {
    hide AfterHead, OneHead, Headless, Like, Ordinary, OrdinaryAll, TokensOf, ConsumeAll, Consume, Balanced;
    HeadOnTop(s, head, b);
    var t := s + [b.(seenOpenBrace := true)];
    if b.seenOpenBrace {
      assert t == s + [b] && [] + ks == ks;
      CompleteBlock(s, t, ks, 0);
    } else {
      WaitingBlock(s, b, k, ks, 0);
    }
    LikeHeaded(s, head, body, s + [b]);
  }

  lemma {:induction false} LikeHeaded(s: seq<Info>, head: Line, body: seq<Line>, t: seq<Info>)
    requires Like(AfterHead(s, head), t) && forall i {:trigger body[i]} :: 0 <= i < |body| ==> Headless(body[i])
    ensures Like(OrdinaryAll(s, [head] + body), ConsumeAll(t, TokensOf([head] + body), 0))
    decreases |body|
  {
    hide AfterHead, Like, Ordinary, Headless;
    var lines, n := [head] + body, |body|;
    if body == [] {
      assert lines == [head] && lines[..0] == [];
      assert OrdinaryAll(s, lines[..0]) == s && TokensOf(lines[..0]) == [];
      assert [] + head.tokens == head.tokens;
      AllBehindHead(s, head);
      LikeConsumeAll(AfterHead(s, head), t, head.tokens, head.number, 0);
    } else {
      assert lines[..n] == [head] + body[..n - 1] && lines[n] == body[n - 1];
      LikeHeaded(s, head, body[..n - 1], t);
      LikeLine(OrdinaryAll(s, lines[..n]), ConsumeAll(t, TokensOf(lines[..n]), 0), lines[n], 0);
      InTwoParts(t, TokensOf(lines[..n]), lines[n].tokens, 0);
    }
  }

  /** A forward declaration, or a class among the arguments of a function, leaves no block. */
  lemma ForwardDeclaration(s: seq<Info>, head: Line, body: seq<Line>, b: Info, k: Token)
    requires OneHead(s, head, b) && !b.seenOpenBrace && !k.Open? && TokensOf([head] + body) == [k]
    requires forall i {:trigger body[i]} :: 0 <= i < |body| ==> Headless(body[i])
    ensures Like(OrdinaryAll(s, [head] + body), s)
  {
    hide AfterHead, OneHead, Headless, Like, Ordinary, OrdinaryAll, TokensOf, ConsumeAll, Consume;
    HeadOnTop(s, head, b);
    WaitingBlock(s, b, k, [], 0);
    LikeHeaded(s, head, body, s + [b]);
  }

  // ---- parentheses and inline assembly

  /** A line without braces or heads. */
  predicate Inner(line: Line) {
    Headless(line) && line.tokens == []
  }

  predicate AllInner(lines: seq<Line>) {
    forall i {:trigger lines[i]} :: 0 <= i < |lines| ==> Inner(lines[i])
  }

  /** Opening parentheses less closing ones, over some lines. */
  function Parentheses(lines: seq<Line>): int {
    if lines == [] then 0 else Parentheses(lines[..|lines| - 1]) + lines[|lines| - 1].depthChange
  }

  /** Lines without braces change the top block alone, and its open parentheses by theirs. */
  lemma {:induction false} TopAfter(s: seq<Info>, lines: seq<Line>)
    requires AllInner(lines) && s != []
    ensures var r, b := OrdinaryAll(s, lines), s[|s| - 1];
      && |r| == |s| && r[..|s| - 1] == s[..|s| - 1]
      && Alike(r[|s| - 1], b) && r[|s| - 1].start == b.start
      && r[|s| - 1].openParentheses == b.openParentheses + Parentheses(lines)
    ensures lines != [] ==>
      var r, r' := OrdinaryAll(s, lines[..|lines| - 1]), OrdinaryAll(s, lines);
      r != [] && r' != [] && r'[|r'| - 1] == Noted(Counted(r[|r| - 1], lines[|lines| - 1]), lines[|lines| - 1])
  {
    hide Ordinary;
    if lines != [] {
      var n := |lines| - 1;
      TopAfter(s, lines[..n]);
      InnerLine(OrdinaryAll(s, lines[..n]), lines[n]);
    }
  }

  lemma InnerLine(s: seq<Info>, line: Line)
    requires Inner(line) && s != []
    ensures var r := Ordinary(s, line);
      |r| == |s| && r[..|s| - 1] == s[..|s| - 1] && r[|s| - 1] == Noted(Counted(s[|s| - 1], line), line)
  {
    hide Counted, Noted;
    var c := Count(s, line);
    assert Declare(PushNamespaces(c, line.namespaces, line.number), line) == c;
    assert Ordinary(s, line) == Note(c, line);
  }

  /** Open parentheses of a block behind the first `m` lines, when there were `open` before. */
  function OpenBehind(lines: seq<Line>, open: int, m: nat): int
    requires m <= |lines|
  {
    open + Parentheses(lines[..m])
  }

  lemma SameOpen(lines: seq<Line>, open: int, m: nat)
    requires m < |lines|
    ensures OpenBehind(lines[..|lines| - 1], open, m) == OpenBehind(lines, open, m)
  {
    assert lines[..|lines| - 1][..m] == lines[..m];
  }

  /** The line at `j` starts inline assembly, and its parenthesis has not been closed since. */
  ghost predicate AssemblyFrom(lines: seq<Line>, open: int, j: nat) {
    && j < |lines| && lines[j].asm && lines[j].depthChange != 0 && OpenBehind(lines, open, j + 1) == 1
    && forall m: nat {:trigger OpenBehind(lines, open, m)} :: j < m <= |lines| ==> OpenBehind(lines, open, m) != 0
  }

  /** A block is inside inline assembly exactly while the parenthesis is open with which the assembly began. */
  lemma {:induction false} AssemblyIff(s: seq<Info>, lines: seq<Line>, open: int)
    requires AllInner(lines) && s != [] && s[|s| - 1].inlineAsm == NoAsm && open == s[|s| - 1].openParentheses
    ensures var r := OrdinaryAll(s, lines);
      && r != [] && r[|r| - 1].inlineAsm != BlockAsm
      && (r[|r| - 1].inlineAsm == InsideAsm <==> exists j: nat :: AssemblyFrom(lines, open, j))
  {
    hide Ordinary, OrdinaryAll, Parentheses, AssemblyFrom;
    TopAfter(s, lines);
    if lines == [] {
      NoLinesNoChange(s);
      assert forall j: nat :: AssemblyFrom(lines, open, j) ==> j < |lines| by {
        FromALine(lines, open);
      }
    } else {
      var n := |lines| - 1;
      AssemblyIff(s, lines[..n], open);
      TopAfter(s, lines[..n]);
      var b, r' := OrdinaryAll(s, lines[..n])[|s| - 1], OrdinaryAll(s, lines);
      var starts := lines[n].asm && lines[n].depthChange != 0 && open + Parentheses(lines) == 1;
      assert r'[|r'| - 1].inlineAsm == Counted(b, lines[n]).inlineAsm;
      assert r'[|r'| - 1].inlineAsm == InsideAsm <==> open + Parentheses(lines) != 0 && (b.inlineAsm == InsideAsm || starts);
      if r'[|r'| - 1].inlineAsm == InsideAsm {
        if b.inlineAsm == InsideAsm {
          var j: nat :| AssemblyFrom(lines[..n], open, j);
          AssemblyStep(lines, open, j);
        } else {
          AssemblyStep(lines, open, n);
        }
      } else {
        forall j: nat
          ensures !AssemblyFrom(lines, open, j)
        {
          AssemblyStep(lines, open, j);
        }
      }
    }
  }

  lemma FromALine(lines: seq<Line>, open: int)
    ensures forall j: nat :: AssemblyFrom(lines, open, j) ==> j < |lines|
  {}

  lemma NoLinesNoChange(s: seq<Info>)
    ensures OrdinaryAll(s, []) == s
  {}

  lemma AssemblyStep(lines: seq<Line>, open: int, j: nat)
    requires lines != []
    ensures var n := |lines| - 1;
      AssemblyFrom(lines, open, j) <==>
        open + Parentheses(lines) != 0
        && (AssemblyFrom(lines[..n], open, j)
            || (j == n && lines[n].asm && lines[n].depthChange != 0 && open + Parentheses(lines) == 1))
  {
    hide OpenBehind, Parentheses;
    var n := |lines| - 1;
    AllOpen(lines, open);
    forall m: nat {:trigger OpenBehind(lines, open, m)} {:trigger OpenBehind(lines[..n], open, m)} | m <= n
      ensures OpenBehind(lines[..n], open, m) == OpenBehind(lines, open, m)
    {
      SameOpen(lines, open, m);
    }
  }

  lemma AllOpen(lines: seq<Line>, open: int)
    ensures OpenBehind(lines, open, |lines|) == open + Parentheses(lines)
  {
    assert lines[..|lines|] == lines;
  }

  /** The last access specifier of some lines. */
  predicate LastAccess(lines: seq<Line>, j: nat) {
    && j < |lines| && lines[j].access.Some?
    && forall m {:trigger lines[m]} :: j < m < |lines| ==> lines[m].access.None?
  }

  /** In a class, and only there, the last access specifier counts, and a colon before the brace makes the class a
      derived one. */
  lemma {:induction false} ClassLines(s: seq<Info>, lines: seq<Line>)
    requires AllInner(lines) && s != []
    ensures var r, b := OrdinaryAll(s, lines), s[|s| - 1];
      && |r| == |s|
      && (b.kind.ClassBlock? ==>
           && (forall j: nat :: LastAccess(lines, j) ==> r[|s| - 1].access == lines[j].access.value)
           && ((forall j: nat :: !LastAccess(lines, j)) ==> r[|s| - 1].access == b.access)
           && (r[|s| - 1].isDerived <==> b.isDerived || (!b.seenOpenBrace && exists l :: l in lines && l.bareColon)))
      && (!b.kind.ClassBlock? ==> r[|s| - 1].access == b.access && r[|s| - 1].isDerived == b.isDerived)
  {
    hide Ordinary;
    if lines != [] {
      var n := |lines| - 1;
      TopAfter(s, lines);
      TopAfter(s, lines[..n]);
      ClassLines(s, lines[..n]);
      forall j: nat
        ensures LastAccess(lines, j) <==> if lines[n].access.Some? then j == n else LastAccess(lines[..n], j)
        ensures LastAccess(lines[..n], j) ==> j < n && lines[..n][j] == lines[j]
      {
        AccessStep(lines, j);
      }
      assert forall l :: l in lines <==> l in lines[..n] || l == lines[n];
    }
  }

  lemma AccessStep(lines: seq<Line>, j: nat)
    requires lines != []
    ensures var n := |lines| - 1;
      LastAccess(lines, j) <==> if lines[n].access.Some? then j == n else LastAccess(lines[..n], j)
    ensures LastAccess(lines[..|lines| - 1], j) ==> j < |lines| - 1
  {
    var n := |lines| - 1;
    assert forall m {:trigger lines[m]} :: 0 <= m < n ==> lines[..n][m] == lines[m];
  }

  // ---- later arms

  /** How many conditionals are open behind the first `m` lines. */
  function Level(lines: seq<Line>, m: nat): nat
    requires m <= |lines|
  {
    |ContextOf(lines[..m])|
  }

  lemma SameLevel(lines: seq<Line>, m: nat)
    requires m < |lines|
    ensures Level(lines[..|lines| - 1], m) == Level(lines, m)
  {
    assert lines[..|lines| - 1][..m] == lines[..m];
  }

  lemma LastLevel(lines: seq<Line>)
    ensures Level(lines, |lines|) == |ContextOf(lines)|
  {
    assert lines[..|lines|] == lines;
  }

  /** The #if at line `j` opened the conditional at level `k`, which is still open behind these lines. */
  ghost predicate OpensLevel(lines: seq<Line>, k: nat, j: nat) {
    && j < |lines| && lines[j].directive == If && Level(lines, j) == k
    && forall m: nat {:trigger Level(lines, m)} :: j < m <= |lines| ==> Level(lines, m) > k
  }

  /** A conditional that is open already has been opened before the last line. */
  lemma OpensLevelStep(lines: seq<Line>, k: nat, j: nat)
    requires lines != [] && j < |lines| - 1
    ensures OpensLevel(lines, k, j) <==> OpensLevel(lines[..|lines| - 1], k, j) && |ContextOf(lines)| > k
  {
    hide Level, ContextOf;
    var n := |lines| - 1;
    LastLevel(lines);
    forall m: nat {:trigger Level(lines, m)} {:trigger Level(lines[..n], m)} | m <= n
      ensures Level(lines[..n], m) == Level(lines, m)
    {
      SameLevel(lines, m);
    }
  }

  /** What is saved for an open conditional is the stack before its #if. */
  lemma {:induction false} SavedBefore(s: seq<Info>, lines: seq<Line>, k: nat, j: nat)
    requires OpensLevel(lines, k, j)
    ensures var w := UpdateAll(State(s, []), lines);
      |w.pps| == |ContextOf(lines)| > k && w.pps[k].beforeIf == UpdateAll(State(s, []), lines[..j]).stack
  {
    hide Update, ContextOf, Level;
    var n := |lines| - 1;
    OneSavedEach(s, lines);
    OneSavedEach(s, lines[..n]);
    LastLevel(lines);
    SavedStep(UpdateAll(State(s, []), lines[..n]), lines[n]);
    if j < n {
      OpensLevelStep(lines, k, j);
      SavedBefore(s, lines[..n], k, j);
      assert lines[..n][..j] == lines[..j];
    } else {
      LevelIs(lines, n);
    }
  }

  lemma LevelIs(lines: seq<Line>, m: nat)
    requires m <= |lines|
    ensures Level(lines, m) == |ContextOf(lines[..m])|
  {}

  lemma OneSavedEach(s: seq<Info>, lines: seq<Line>)
    ensures |UpdateAll(State(s, []), lines).pps| == |ContextOf(lines)|
  {
    hide UpdateAll, ContextOf, Lasting;
    LastingIsFirstArms(s, lines);
  }

  lemma SavedStep(w: State, line: Line)
    ensures var w' := Update(w, line);
      && (forall k :: 0 <= k < |w.pps| && k < |w'.pps| ==> w'.pps[k].beforeIf == w.pps[k].beforeIf)
      && (line.directive == If ==> |w'.pps| == |w.pps| + 1 && w'.pps[|w.pps|].beforeIf == w.stack)
  {
    hide Ordinary;
  }

  /** Every open conditional has been opened somewhere. */
  lemma {:induction false} Opener(lines: seq<Line>, k: nat) returns (j: nat)
    requires k < |ContextOf(lines)|
    ensures OpensLevel(lines, k, j)
  {
    var n := |lines| - 1;
    LastLevel(lines);
    if k < |ContextOf(lines[..n])| {
      j := Opener(lines[..n], k);
      OpensLevelStep(lines, k, j);
    } else {
      j := n;
    }
  }

  /** Each #else and #elif starts from the stack as it was before the #if it belongs to. */
  lemma LaterArms(s: seq<Info>, lines: seq<Line>, line: Line, j: nat)
    requires line.directive == Else && ContextOf(lines) != [] && OpensLevel(lines, |ContextOf(lines)| - 1, j)
    ensures UpdateAll(State(s, []), lines + [line]).stack == Ordinary(UpdateAll(State(s, []), lines[..j]).stack, line)
  {
    hide Ordinary, ContextOf, OpensLevel;
    SavedBefore(s, lines, |ContextOf(lines)| - 1, j);
    assert (lines + [line])[..|lines|] == lines;
  }
}
