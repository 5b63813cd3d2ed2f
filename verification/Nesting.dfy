/** cpplint's nesting state: blocks across preprocessor conditionals. */
module Nesting {
  import opened Options

  datatype Kind = ClassBlock(name: string, isStruct: bool) | NamespaceBlock(name: string) | ExternCBlock | OtherBlock

  datatype Asm = NoAsm | InsideAsm | EndAsm | BlockAsm

  /** What is known of a block. */
  datatype Info = Info(kind: Kind, start: int, seenOpenBrace: bool, openParentheses: int, inlineAsm: Asm,
                       access: string, isDerived: bool)

  datatype Directive = If | Else | Endif | NoDirective

  /** A brace, semicolon or parenthesis; the regular expressions for extern "C" and inline assembly are
      matched against what is left of the line at an opening brace. */
  datatype Token = Open(externC: bool, asm: bool) | Semicolon | CloseParenthesis | Close

  datatype Declaration = Declaration(name: string, isStruct: bool, inTemplate: bool)

  datatype Namespace = Namespace(name: string, brace: bool)

  /** A line of code as the regular expressions see it. */
  datatype Line = Line(number: int, directive: Directive, depthChange: int, asm: bool, namespaces: seq<Namespace>,
                       declaration: Option<Declaration>, bareColon: bool, access: Option<string>, tokens: seq<Token>)

  // ---- what a line does to the stack of blocks

  function SeenOpenBrace(s: seq<Info>): bool {
    s == [] || s[|s| - 1].seenOpenBrace
  }

  function SetTop(s: seq<Info>, b: Info): seq<Info>
    requires s != []
  {
    s[..|s| - 1] + [b]
  }

  /** Parentheses and inline assembly. */
  function Counted(b: Info, line: Line): Info {
    var open := b.openParentheses + line.depthChange;
    b.(openParentheses := open,
       inlineAsm :=
         if b.inlineAsm == NoAsm || b.inlineAsm == EndAsm then
           (if line.depthChange != 0 && open == 1 && line.asm then InsideAsm else NoAsm)
         else if b.inlineAsm == InsideAsm && open == 0 then EndAsm
         else b.inlineAsm)
  }

  function Count(s: seq<Info>, line: Line): seq<Info> {
    if s == [] then s else SetTop(s, Counted(s[|s| - 1], line))
  }

  function NewNamespace(n: Namespace, number: int): Info {
    Info(NamespaceBlock(n.name), number, n.brace, 0, NoAsm, "", false)
  }

  function PushNamespaces(s: seq<Info>, ns: seq<Namespace>, number: int): seq<Info> {
    if ns == [] then s else PushNamespaces(s, ns[..|ns| - 1], number) + [NewNamespace(ns[|ns| - 1], number)]
  }

  function NewClass(d: Declaration, number: int): Info {
    Info(ClassBlock(d.name, d.isStruct), number, false, 0, NoAsm, if d.isStruct then "public" else "private", false)
  }

  predicate Declares(s: seq<Info>, line: Line) {
    line.declaration.Some? && (s == [] || s[|s| - 1].openParentheses == 0) && !line.declaration.value.inTemplate
  }

  function Declare(s: seq<Info>, line: Line): seq<Info> {
    if Declares(s, line) then s + [NewClass(line.declaration.value, line.number)] else s
  }

  /** CheckBegin, and the access specifier. */
  function Noted(b: Info, line: Line): Info {
    var b1 := if !b.seenOpenBrace && b.kind.ClassBlock? && line.bareColon then b.(isDerived := true) else b;
    if b.kind.ClassBlock? && line.access.Some? then b1.(access := line.access.value) else b1
  }

  function Note(s: seq<Info>, line: Line): seq<Info> {
    if s == [] then s else SetTop(s, Noted(s[|s| - 1], line))
  }

  function NewBlock(externC: bool, asm: bool, number: int): Info {
    if externC then Info(ExternCBlock, number, true, 0, NoAsm, "", false)
    else Info(OtherBlock, number, true, 0, if asm then BlockAsm else NoAsm, "", false)
  }

  function Consume(s: seq<Info>, k: Token, number: int): seq<Info> {
    match k
    case Open(externC, asm) =>
      if !SeenOpenBrace(s) then SetTop(s, s[|s| - 1].(seenOpenBrace := true)) else s + [NewBlock(externC, asm, number)]
    case Close => if s == [] then s else s[..|s| - 1]
    case _ => if !SeenOpenBrace(s) then s[..|s| - 1] else s
  }

  function ConsumeAll(s: seq<Info>, ks: seq<Token>, number: int): seq<Info> {
    if ks == [] then s else Consume(ConsumeAll(s, ks[..|ks| - 1], number), ks[|ks| - 1], number)
  }

  /** All that Update does with a line, apart from the preprocessor. */
  function Ordinary(s: seq<Info>, line: Line): seq<Info> {
    ConsumeAll(Note(Declare(PushNamespaces(Count(s, line), line.namespaces, line.number), line), line), line.tokens, line.number)
  }

  // ---- the preprocessor

  datatype Saved = Saved(beforeIf: seq<Info>, beforeElse: seq<Info>, seenElse: bool)

  datatype State = State(stack: seq<Info>, pps: seq<Saved>)

  function Preprocess(w: State, d: Directive): State {
    var n := |w.pps|;
    match d
    case If => w.(pps := w.pps + [Saved(w.stack, [], false)])
    case Else =>
      if n == 0 then w
      else
        var p := w.pps[n - 1];
        State(p.beforeIf, w.pps[n - 1 := if p.seenElse then p else p.(seenElse := true, beforeElse := w.stack)])
    case Endif =>
      if n == 0 then w
      else State(if w.pps[n - 1].seenElse then w.pps[n - 1].beforeElse else w.stack, w.pps[..n - 1])
    case NoDirective => w
  }

  function Update(w: State, line: Line): State {
    var w1 := Preprocess(w, line.directive);
    w1.(stack := Ordinary(w1.stack, line))
  }

  function UpdateAll(w: State, lines: seq<Line>): State {
    if lines == [] then w else Update(UpdateAll(w, lines[..|lines| - 1]), lines[|lines| - 1])
  }

  // ---- only the first arm of each conditional counts

  /** For every open conditional, whether an #else or #elif has been seen. */
  type Context = seq<bool>

  function ContextAfter(ctx: Context, d: Directive): Context {
    match d
    case If => ctx + [false]
    case Else => if ctx == [] then ctx else ctx[|ctx| - 1 := true]
    case Endif => if ctx == [] then ctx else ctx[..|ctx| - 1]
    case NoDirective => ctx
  }

  function ContextOf(lines: seq<Line>): Context {
    if lines == [] then [] else ContextAfter(ContextOf(lines[..|lines| - 1]), lines[|lines| - 1].directive)
  }

  predicate Active(ctx: Context) {
    forall i :: 0 <= i < |ctx| ==> !ctx[i]
  }

  /** Lines in first arms only count, with the #if and #endif around them; an #else or #elif counts only when
      there is nothing that it could belong to. */
  predicate Counts(ctx: Context, d: Directive) {
    Active(ContextAfter(ctx, d)) && (d == Else ==> ctx == [])
  }

  /** The lines of first arms. */
  function FirstArms(lines: seq<Line>): seq<Line> {
    if lines == [] then []
    else
      var n := |lines| - 1;
      FirstArms(lines[..n]) + (if Counts(ContextOf(lines[..n]), lines[n].directive) then [lines[n]] else [])
  }

  function OrdinaryAll(s: seq<Info>, lines: seq<Line>): seq<Info> {
    if lines == [] then s else Ordinary(OrdinaryAll(s, lines[..|lines| - 1]), lines[|lines| - 1])
  }

  /** The outermost conditional whose first arm is over. */
  ghost function Outermost(ctx: Context): (k: nat)
    ensures k <= |ctx| && (k == |ctx| <==> Active(ctx)) && (k < |ctx| ==> ctx[k]) && forall i :: 0 <= i < k ==> !ctx[i]
  {
    if ctx == [] then 0
    else
      var k := Outermost(ctx[..|ctx| - 1]);
      if k < |ctx| - 1 then k else if ctx[|ctx| - 1] then |ctx| - 1 else |ctx|
  }

  lemma OutermostIs(ctx: Context, k: nat)
    requires k < |ctx| && ctx[k] && forall i :: 0 <= i < k ==> !ctx[i]
    ensures Outermost(ctx) == k
  {}

  /** The stack that will be there when all later arms are over. */
  ghost function Lasting(w: State, ctx: Context): seq<Info>
    requires |w.pps| == |ctx|
  {
    if Active(ctx) then w.stack else w.pps[Outermost(ctx)].beforeElse
  }

  ghost predicate InStep(w: State, ctx: Context) {
    |w.pps| == |ctx| && forall i :: 0 <= i < |ctx| ==> w.pps[i].seenElse == ctx[i]
  }

  /** One line changes the lasting stack only if it counts, and then as if there were no preprocessor. */
  lemma LastingStep(w: State, ctx: Context, line: Line)
    requires InStep(w, ctx)
    ensures InStep(Update(w, line), ContextAfter(ctx, line.directive))
    ensures Lasting(Update(w, line), ContextAfter(ctx, line.directive))
         == if Counts(ctx, line.directive) then Ordinary(Lasting(w, ctx), line) else Lasting(w, ctx)
  {
    hide Ordinary;
    var ctx', k, n := ContextAfter(ctx, line.directive), Outermost(ctx), |ctx|;
    match line.directive {
      case If =>
        if k < n {
          OutermostIs(ctx', k);
        }
      case Else =>
        if k < n {
          OutermostIs(ctx', k);
        } else if n > 0 {
          OutermostIs(ctx', n - 1);
        }
      case Endif =>
        if k < n - 1 {
          OutermostIs(ctx', k);
        }
      case NoDirective =>
    }
  }

  lemma {:induction false} LastingIsFirstArms(s: seq<Info>, lines: seq<Line>)
    ensures InStep(UpdateAll(State(s, []), lines), ContextOf(lines))
    ensures Lasting(UpdateAll(State(s, []), lines), ContextOf(lines)) == OrdinaryAll(s, FirstArms(lines))
  {
    if lines != [] {
      var n := |lines| - 1;
      var kept := FirstArms(lines[..n]);
      LastingIsFirstArms(s, lines[..n]);
      LastingStep(UpdateAll(State(s, []), lines[..n]), ContextOf(lines[..n]), lines[n]);
      assert (kept + [lines[n]])[..|kept|] == kept;
      assert kept + [] == kept;
    }
  }

  /** When every conditional has been closed, the stack is what the first arms alone leave. */
  lemma FirstArmsOnly(s: seq<Info>, lines: seq<Line>)
    requires ContextOf(lines) == []
    ensures UpdateAll(State(s, []), lines) == State(OrdinaryAll(s, FirstArms(lines)), [])
  {
    LastingIsFirstArms(s, lines);
  }

  // ---- leaving out the directives themselves

  /** A directive line without brackets or anything else to act on. */
  predicate Neutral(line: Line) {
    && line.depthChange == 0 && line.namespaces == [] && line.declaration == None && !line.bareColon
    && line.access == None && line.tokens == []
  }

  predicate NeutralDirectives(lines: seq<Line>) {
    forall i {:trigger lines[i]} :: 0 <= i < |lines| && lines[i].directive != NoDirective ==> Neutral(lines[i])
  }

  /** A block that no longer knows that its assembly has just ended. */
  function Forgotten(b: Info): Info {
    if b.inlineAsm == EndAsm then b.(inlineAsm := NoAsm) else b
  }

  function Forget(s: seq<Info>): seq<Info> {
    if s == [] then s else SetTop(s, Forgotten(s[|s| - 1]))
  }

  /** Inside inline assembly a parenthesis is open. */
  ghost predicate Sane(s: seq<Info>) {
    forall i {:trigger s[i]} :: 0 <= i < |s| && s[i].inlineAsm == InsideAsm ==> s[i].openParentheses != 0
  }

  lemma {:induction false} NamespacesSane(s: seq<Info>, ns: seq<Namespace>, number: int)
    requires Sane(s)
    ensures Sane(PushNamespaces(s, ns, number))
  {
    if ns != [] {
      NamespacesSane(s, ns[..|ns| - 1], number);
    }
  }

  lemma {:induction false} TokensSane(s: seq<Info>, ks: seq<Token>, number: int)
    requires Sane(s)
    ensures Sane(ConsumeAll(s, ks, number))
  {
    if ks != [] {
      TokensSane(s, ks[..|ks| - 1], number);
    }
  }

  lemma OrdinarySane(s: seq<Info>, line: Line)
    requires Sane(s)
    ensures Sane(Ordinary(s, line))
  {
    hide Count, PushNamespaces, Declare, Note, ConsumeAll, Sane;
    var s1 := Count(s, line);
    CountSane(s, line);
    NamespacesSane(s1, line.namespaces, line.number);
    var s2 := PushNamespaces(s1, line.namespaces, line.number);
    DeclareSane(s2, line);
    NoteSane(Declare(s2, line), line);
    TokensSane(Note(Declare(s2, line), line), line.tokens, line.number);
  }

  lemma TopSane(s: seq<Info>, b: Info)
    requires Sane(s) && s != [] && (b.inlineAsm == InsideAsm ==> b.openParentheses != 0)
    ensures Sane(SetTop(s, b))
  {
    var r := SetTop(s, b);
    forall i {:trigger r[i]} | 0 <= i < |r| && r[i].inlineAsm == InsideAsm
      ensures r[i].openParentheses != 0
    {
      if i < |s| - 1 {
        assert r[i] == s[i];
      } else {
        assert r[i] == b;
      }
    }
  }

  lemma CountSane(s: seq<Info>, line: Line)
    requires Sane(s)
    ensures Sane(Count(s, line))
  {
    if s != [] {
      assert s[|s| - 1].inlineAsm == InsideAsm ==> s[|s| - 1].openParentheses != 0;
      hide SetTop, Sane;
      TopSane(s, Counted(s[|s| - 1], line));
    }
  }

  lemma DeclareSane(s: seq<Info>, line: Line)
    requires Sane(s)
    ensures Sane(Declare(s, line))
  {}

  lemma NoteSane(s: seq<Info>, line: Line)
    requires Sane(s)
    ensures Sane(Note(s, line))
  {
    if s != [] {
      assert s[|s| - 1].inlineAsm == InsideAsm ==> s[|s| - 1].openParentheses != 0;
      hide SetTop, Sane;
      TopSane(s, Noted(s[|s| - 1], line));
    }
  }

  /** All that a neutral line does. */
  lemma NeutralLine(s: seq<Info>, line: Line)
    requires Neutral(line) && Sane(s)
    ensures Ordinary(s, line) == Forget(s)
  {
    hide Ordinary;
    NeutralEffect(s, line);
    if s != [] {
      assert s[|s| - 1].inlineAsm == InsideAsm ==> s[|s| - 1].openParentheses != 0;
      assert Counted(s[|s| - 1], line) == Forgotten(s[|s| - 1]);
    }
  }

  lemma ForgetIff(s: seq<Info>)
    ensures Forget(s) == s <==> s == [] || s[|s| - 1].inlineAsm != EndAsm
    ensures Forget(Forget(s)) == Forget(s)
  {
    hide SetTop;
    if s != [] {
      SetTopAt(s, Forgotten(s[|s| - 1]));
      SetTopAt(Forget(s), Forgotten(s[|s| - 1]));
    }
  }

  /** No line can tell. */
  lemma ForgetUnseen(s: seq<Info>, line: Line)
    ensures Ordinary(Forget(s), line) == Ordinary(s, line)
  {
    hide PushNamespaces, Declare, Note, ConsumeAll;
    if s != [] {
      assert Counted(Forgotten(s[|s| - 1]), line) == Counted(s[|s| - 1], line);
      assert Forget(s)[..|s| - 1] == s[..|s| - 1];
    }
    assert Count(Forget(s), line) == Count(s, line);
  }

  lemma SetTopAt(s: seq<Info>, b: Info)
    requires s != []
    ensures var r := SetTop(s, b);
      |r| == |s| && r[|s| - 1] == b && (forall i :: 0 <= i < |s| - 1 ==> r[i] == s[i]) && (b == s[|s| - 1] ==> r == s)
  {
    assert s == s[..|s| - 1] + [s[|s| - 1]];
  }

  lemma NeutralEffect(s: seq<Info>, line: Line)
    requires Neutral(line)
    ensures Ordinary(s, line) == Count(s, line)
  {
    hide Counted, Count;
    var c := Count(s, line);
    assert PushNamespaces(c, line.namespaces, line.number) == c && Declare(c, line) == c;
    NothingNoted(c, line);
    assert ConsumeAll(c, line.tokens, line.number) == c;
  }

  /** The lines that are not conditional directives. */
  function Plain(lines: seq<Line>): seq<Line> {
    if lines == [] then []
    else Plain(lines[..|lines| - 1]) + (if lines[|lines| - 1].directive == NoDirective then [lines[|lines| - 1]] else [])
  }

  lemma {:induction false} AllSane(s: seq<Info>, lines: seq<Line>)
    requires Sane(s)
    ensures Sane(OrdinaryAll(s, lines))
  {
    hide Ordinary;
    if lines != [] {
      AllSane(s, lines[..|lines| - 1]);
      OrdinarySane(OrdinaryAll(s, lines[..|lines| - 1]), lines[|lines| - 1]);
    }
  }

  predicate EndsWithDirective(lines: seq<Line>) {
    lines != [] && lines[|lines| - 1].directive != NoDirective
  }

  lemma {:induction false} WithoutDirectives(s: seq<Info>, lines: seq<Line>)
    requires Sane(s) && NeutralDirectives(lines)
    ensures var plain := OrdinaryAll(s, Plain(lines));
      OrdinaryAll(s, lines) == if EndsWithDirective(lines) then Forget(plain) else plain
  {
    hide Ordinary, Forget, Neutral;
    if lines != [] {
      var n := |lines| - 1;
      var rest := Plain(lines[..n]);
      WithoutDirectives(s, lines[..n]);
      var plain := OrdinaryAll(s, rest);
      if lines[n].directive == NoDirective {
        assert (rest + [lines[n]])[..|rest|] == rest;
        ForgetUnseen(plain, lines[n]);
      } else {
        assert rest + [] == rest;
        AllSane(s, lines[..n]);
        NeutralLine(OrdinaryAll(s, lines[..n]), lines[n]);
        ForgetIff(plain);
      }
    }
  }

  lemma {:induction false} KeptLines(lines: seq<Line>)
    requires NeutralDirectives(lines)
    ensures NeutralDirectives(FirstArms(lines))
  {
    hide Neutral;
    if lines != [] {
      var rest, kept := FirstArms(lines[..|lines| - 1]), FirstArms(lines);
      KeptLines(lines[..|lines| - 1]);
      forall i {:trigger kept[i]} | 0 <= i < |kept| && kept[i].directive != NoDirective
        ensures Neutral(kept[i])
      {
        if i < |rest| {
          assert kept[i] == rest[i] && Neutral(rest[i]);
        } else {
          assert kept[i] == lines[|lines| - 1];
          assert Neutral(lines[|lines| - 1]);
        }
      }
    }
  }

  /** With neutral directives, all conditionals closed: the stack is that of the plain lines in first arms, except
      that when a directive comes last the top block has forgotten that its assembly had just ended. */
  lemma FirstArmsWithoutDirectives(s: seq<Info>, lines: seq<Line>)
    requires ContextOf(lines) == [] && Sane(s)
    requires NeutralDirectives(lines)
    ensures var stack, kept := UpdateAll(State(s, []), lines).stack, FirstArms(lines);
      var plain := OrdinaryAll(s, Plain(kept));
      && stack == (if EndsWithDirective(kept) then Forget(plain) else plain)
      && (stack == plain <==> !(EndsWithDirective(kept) && plain != [] && plain[|plain| - 1].inlineAsm == EndAsm))
  {
    FirstArmsOnly(s, lines);
    KeptLines(lines);
    WithoutDirectives(s, FirstArms(lines));
    ForgetIff(OrdinaryAll(s, Plain(FirstArms(lines))));
  }

  /** The exception is real: a function body, inline assembly over two lines, and an empty conditional behind it. */
  lemma AssemblyForgotten()
    ensures exists lines: seq<Line> ::
      && ContextOf(lines) == [] && |lines| == 5 && NeutralDirectives(lines)
      && UpdateAll(State([], []), lines).stack != OrdinaryAll([], Plain(FirstArms(lines)))
  {
    hide Ordinary, UpdateAll, OrdinaryAll, FirstArms, Plain, ContextOf;
    var l1 := Line(1, NoDirective, 0, false, [], None, false, None, [CloseParenthesis, Open(false, false)]);
    var l2 := Line(2, NoDirective, 1, true, [], None, false, None, []);
    var l3 := Line(3, NoDirective, -1, false, [], None, false, None, [CloseParenthesis, Semicolon]);
    var l4, l5 := Line(4, If, 0, false, [], None, false, None, []), Line(5, Endif, 0, false, [], None, false, None, []);
    var lines := [l1, l2, l3, l4, l5];
    ThreeAndTwo(l1, l2, l3, l4, l5);
    assert FirstArms(lines) == lines && Plain(lines) == [l1, l2, l3];
    BodyWithAssembly(l1, l2, l3);
    FirstArmsWithoutDirectives([], lines);
  }

  lemma ThreeAndTwo(l1: Line, l2: Line, l3: Line, l4: Line, l5: Line)
    requires l1.directive == l2.directive == l3.directive == NoDirective && l4.directive == If && l5.directive == Endif
    ensures var lines := [l1, l2, l3, l4, l5];
      ContextOf(lines) == [] && FirstArms(lines) == lines && Plain(lines) == [l1, l2, l3]
  {
    hide ContextOf, FirstArms, Plain;
    NoLines();
    var a1 := [] + [l1];
    var a2 := a1 + [l2];
    var a3 := a2 + [l3];
    var a4 := a3 + [l4];
    Snoc([], l1);
    Snoc(a1, l2);
    Snoc(a2, l3);
    Snoc(a3, l4);
    Snoc(a4, l5);
    NothingAdded(a3);
    OneByOne(l1, l2, l3, l4, l5);
  }

  lemma NothingAdded(lines: seq<Line>)
    ensures lines + [] == lines
  {}

  lemma OneByOne(l1: Line, l2: Line, l3: Line, l4: Line, l5: Line)
    ensures [] + [l1] + [l2] + [l3] == [l1, l2, l3]
    ensures [] + [l1] + [l2] + [l3] + [l4] + [l5] == [l1, l2, l3, l4, l5]
  {}

  lemma NoLines()
    ensures ContextOf([]) == [] && FirstArms([]) == [] && Plain([]) == []
  {}

  lemma Snoc(lines: seq<Line>, l: Line)
    ensures ContextOf(lines + [l]) == ContextAfter(ContextOf(lines), l.directive)
    ensures FirstArms(lines + [l]) == FirstArms(lines) + (if Counts(ContextOf(lines), l.directive) then [l] else [])
    ensures Plain(lines + [l]) == Plain(lines) + (if l.directive == NoDirective then [l] else [])
  {
    assert (lines + [l])[..|lines|] == lines;
  }

  /** Behind the third line the block knows that its assembly has just ended. */
  lemma BodyWithAssembly(l1: Line, l2: Line, l3: Line)
    requires l1 == Line(1, NoDirective, 0, false, [], None, false, None, [CloseParenthesis, Open(false, false)])
    requires l2 == Line(2, NoDirective, 1, true, [], None, false, None, [])
    requires l3 == Line(3, NoDirective, -1, false, [], None, false, None, [CloseParenthesis, Semicolon])
    ensures OrdinaryAll([], [l1, l2, l3]) == [Info(OtherBlock, 1, true, 0, EndAsm, "", false)]
  {
    hide Ordinary;
    var b := Info(OtherBlock, 1, true, 0, NoAsm, "", false);
    BodyOpens(l1);
    Uncounted([b], l2);
    var b' := b.(openParentheses := 1, inlineAsm := InsideAsm);
    assert Count([b], l2) == [b'];
    Uncounted([b'], l3);
    assert Count([b'], l3) == [b.(inlineAsm := EndAsm)];
    assert [l1, l2, l3][..2] == [l1, l2] && [l1, l2][..1] == [l1] && [l1][..0] == [];
    assert OrdinaryAll([], [l1]) == [b];
  }

  lemma BodyOpens(line: Line)
    requires line == Line(1, NoDirective, 0, false, [], None, false, None, [CloseParenthesis, Open(false, false)])
    ensures Ordinary([], line) == [Info(OtherBlock, 1, true, 0, NoAsm, "", false)]
  {
    TwoTokens([], CloseParenthesis, Open(false, false), 1);
    assert [NewBlock(false, false, 1)] == [] + [NewBlock(false, false, 1)];
  }

  /** Inside a block only parentheses count, while no brace comes. */
  lemma Uncounted(s: seq<Info>, line: Line)
    requires line.namespaces == [] && line.declaration == None && !line.bareColon && line.access == None
    requires s != [] && s[|s| - 1].seenOpenBrace && (line.tokens == [] || line.tokens == [CloseParenthesis, Semicolon])
    ensures Ordinary(s, line) == Count(s, line)
  {
    var c := Count(s, line);
    assert c[|c| - 1] == Counted(s[|s| - 1], line);
    hide Counted, Count;
    assert PushNamespaces(c, line.namespaces, line.number) == c && Declare(c, line) == c;
    NothingNoted(c, line);
    if line.tokens == [] {
      assert ConsumeAll(c, [], line.number) == c;
    } else {
      TwoTokens(c, CloseParenthesis, Semicolon, line.number);
    }
  }

  lemma NothingNoted(s: seq<Info>, line: Line)
    requires !line.bareColon && line.access == None
    ensures Note(s, line) == s
  {
    if s != [] {
      assert Noted(s[|s| - 1], line) == s[|s| - 1];
    }
  }

  lemma TwoTokens(s: seq<Info>, k1: Token, k2: Token, number: int)
    ensures ConsumeAll(s, [k1, k2], number) == Consume(Consume(s, k1, number), k2, number)
  {
    assert [k1, k2][..1] == [k1] && [k1][..0] == [];
    assert ConsumeAll(s, [k1], number) == Consume(s, k1, number);
  }

  // ---- the mutable state

  class Block {
    const kind: Kind
    const start: int
    var seenOpenBrace: bool
    var openParentheses: int
    var inlineAsm: Asm
    var access: string
    var isDerived: bool

    constructor (b: Info)
      ensures Value() == b
    {
      kind, start, seenOpenBrace, openParentheses := b.kind, b.start, b.seenOpenBrace, b.openParentheses;
      inlineAsm, access, isDerived := b.inlineAsm, b.access, b.isDerived;
    }

    function Value(): Info
      reads this
    {
      Info(kind, start, seenOpenBrace, openParentheses, inlineAsm, access, isDerived)
    }

    /** Parentheses and inline assembly. */
    method CountParentheses(line: Line)
      modifies this
      ensures Value() == Counted(old(Value()), line)
    {
      openParentheses := openParentheses + line.depthChange;
      if inlineAsm == NoAsm || inlineAsm == EndAsm {
        if line.depthChange != 0 && openParentheses == 1 && line.asm {
          inlineAsm := InsideAsm;
        } else {
          inlineAsm := NoAsm;
        }
      } else if inlineAsm == InsideAsm && openParentheses == 0 {
        inlineAsm := EndAsm;
      }
    }

    /** CheckBegin and access specifiers. */
    method NoteLine(line: Line)
      modifies this
      ensures Value() == Noted(old(Value()), line)
    {
      if !seenOpenBrace && kind.ClassBlock? && line.bareColon {
        isDerived := true;
      }
      if kind.ClassBlock? && line.access.Some? {
        access := line.access.value;
      }
    }
  }

  /** What the blocks of a stack say now. */
  ghost function Values(s: seq<Block>): (v: seq<Info>)
    reads set b | b in s
    ensures |v| == |s| && forall i :: 0 <= i < |s| ==> v[i] == s[i].Value()
  {
    if s == [] then [] else Values(s[..|s| - 1]) + [s[|s| - 1].Value()]
  }

  ghost predicate Distinct(s: seq<Block>) {
    forall i, j :: 0 <= i < j < |s| ==> s[i] != s[j]
  }

  ghost function Members(s: seq<Block>): set<Block> {
    set b | b in s
  }

  lemma SameValues(s: seq<Block>, v: seq<Info>)
    requires |v| == |s| && forall i :: 0 <= i < |s| ==> v[i] == s[i].Value()
    ensures Values(s) == v
  {}

  /** Changing the top block changes the top value. */
  lemma TopValue(s: seq<Block>, v: seq<Info>, b: Info)
    requires s != [] && |v| == |s| && (forall i :: 0 <= i < |s| - 1 ==> v[i] == s[i].Value()) && s[|s| - 1].Value() == b
    ensures Values(s) == SetTop(v, b)
  {
    SetTopAt(v, b);
    SameValues(s, SetTop(v, b));
  }

  lemma PushedValue(s: seq<Block>, b: Block, v: seq<Info>)
    requires Values(s) == v
    ensures Values(s + [b]) == v + [b.Value()]
  {
    SameValues(s + [b], v + [b.Value()]);
  }

  lemma PoppedValue(s: seq<Block>)
    requires s != []
    ensures Values(s[..|s| - 1]) == Values(s)[..|s| - 1]
  {
    SameValues(s[..|s| - 1], Values(s)[..|s| - 1]);
  }

  /** copy.deepcopy of a list of blocks. */
  method DeepCopy(s: seq<Block>) returns (t: seq<Block>)
    ensures Values(t) == Values(s) && Distinct(t) && forall b :: b in t ==> fresh(b)
  {
    t := [];
    var i := 0;
    while i < |s|
      invariant 0 <= i <= |s| && |t| == i && Distinct(t) && (forall b :: b in t ==> fresh(b))
      invariant forall k :: 0 <= k < i ==> t[k].Value() == s[k].Value()
    {
      var b := new Block(s[i].Value());
      t := t + [b];
      i := i + 1;
    }
    SameValues(t, Values(s));
  }

  /** A step from stack `s` to stack `t`: blocks of `t` are blocks of `s` or new. */
  twostate predicate Stays(s: seq<Block>, new t: seq<Block>) {
    Distinct(t) && forall b {:trigger b in t} :: b in t ==> b in s || fresh(b)
  }

  method CountTop(s: seq<Block>, line: Line)
    requires Distinct(s)
    modifies Members(s)
    ensures Values(s) == Count(old(Values(s)), line)
  {
    if s != [] {
      ghost var v := Values(s);
      s[|s| - 1].CountParentheses(line);
      TopValue(s, v, Counted(v[|s| - 1], line));
    }
  }

  method PushAll(s: seq<Block>, ns: seq<Namespace>, number: int) returns (t: seq<Block>)
    requires Distinct(s)
    ensures Values(t) == PushNamespaces(Values(s), ns, number) && Stays(s, t)
  {
    hide Values;
    t := s;
    var i := 0;
    while i < |ns|
      invariant 0 <= i <= |ns| && Distinct(t) && (forall b {:trigger b in t} :: b in t ==> b in s || fresh(b))
      invariant Values(t) == PushNamespaces(Values(s), ns[..i], number)
    {
      var b := new Block(NewNamespace(ns[i], number));
      PushedValue(t, b, Values(t));
      assert ns[..i + 1][..i] == ns[..i];
      t := t + [b];
      i := i + 1;
    }
    assert ns[..i] == ns;
  }

  method DeclareClass(s: seq<Block>, line: Line) returns (t: seq<Block>)
    requires Distinct(s)
    ensures Values(t) == Declare(Values(s), line) && Stays(s, t)
  {
    t := s;
    if line.declaration.Some? && (s == [] || s[|s| - 1].openParentheses == 0) {
      if !line.declaration.value.inTemplate {
        var b := new Block(NewClass(line.declaration.value, line.number));
        PushedValue(s, b, Values(s));
        t := s + [b];
      }
    }
  }

  method NoteTop(s: seq<Block>, line: Line)
    requires Distinct(s)
    modifies Members(s)
    ensures Values(s) == Note(old(Values(s)), line)
  {
    if s != [] {
      ghost var v := Values(s);
      s[|s| - 1].NoteLine(line);
      TopValue(s, v, Noted(v[|s| - 1], line));
    }
  }

  /** An opening brace: the block has waited for it, or a new one begins. */
  method OpenBrace(s: seq<Block>, externC: bool, asm: bool, number: int) returns (t: seq<Block>)
    requires Distinct(s)
    modifies Members(s)
    ensures Values(t) == Consume(old(Values(s)), Open(externC, asm), number) && Stays(s, t)
  {
    hide Values;
    t := s;
    ghost var v := Values(s);
    if !(s == [] || s[|s| - 1].seenOpenBrace) {
      s[|s| - 1].seenOpenBrace := true;
      TopValue(s, v, v[|s| - 1].(seenOpenBrace := true));
    } else {
      var b := new Block(NewBlock(externC, asm, number));
      PushedValue(s, b, v);
      t := s + [b];
    }
  }

  method Pop(s: seq<Block>) returns (t: seq<Block>)
    requires Distinct(s) && s != []
    ensures Values(t) == Values(s)[..|s| - 1] && Stays(s, t)
  {
    hide Values;
    PoppedValue(s);
    t := s[..|s| - 1];
  }

  /** One brace, semicolon or parenthesis. */
  method ConsumeToken(s: seq<Block>, k: Token, number: int) returns (t: seq<Block>)
    requires Distinct(s)
    modifies Members(s)
    ensures Values(t) == Consume(old(Values(s)), k, number) && Stays(s, t)
  {
    hide Values;
    t := s;
    match k {
      case Open(externC, asm) =>
        t := OpenBrace(s, externC, asm, number);
      case Close =>
        if s != [] {
          t := Pop(s);
        }
      case _ =>
        if !(s == [] || s[|s| - 1].seenOpenBrace) {
          t := Pop(s);
        }
    }
  }

  method ConsumeTokens(s: seq<Block>, ks: seq<Token>, number: int) returns (t: seq<Block>)
    requires Distinct(s)
    modifies Members(s)
    ensures Values(t) == ConsumeAll(old(Values(s)), ks, number) && Stays(s, t)
  {
    t := s;
    ghost var v := Values(s);
    var i := 0;
    while i < |ks|
      invariant 0 <= i <= |ks| && Distinct(t) && (forall b {:trigger b in t} :: b in t ==> b in s || fresh(b))
      invariant Values(t) == ConsumeAll(v, ks[..i], number)
    {
      assert ks[..i + 1][..i] == ks[..i];
      t := ConsumeToken(t, ks[i], number);
      i := i + 1;
    }
    assert ks[..i] == ks;
  }

  /** Update up to the declaration of a class. */
  method UpdateHead(s: seq<Block>, line: Line) returns (t: seq<Block>)
    requires Distinct(s)
    modifies Members(s)
    ensures Values(t) == Declare(PushNamespaces(Count(old(Values(s)), line), line.namespaces, line.number), line) && Stays(s, t)
  {
    hide Count, PushNamespaces, Declare;
    CountTop(s, line);
    t := PushAll(s, line.namespaces, line.number);
    t := DeclareClass(t, line);
  }

  /** Update without the preprocessor. */
  method UpdateBlocks(s: seq<Block>, line: Line) returns (t: seq<Block>)
    requires Distinct(s)
    modifies Members(s)
    ensures Values(t) == Ordinary(old(Values(s)), line) && Stays(s, t)
  {
    hide Count, PushNamespaces, Declare, Note, ConsumeAll;
    t := UpdateHead(s, line);
    NoteTop(t, line);
    t := ConsumeTokens(t, line.tokens, line.number);
  }

  /** _PreprocessorInfo. */
  datatype PreprocessorInfo = PreprocessorInfo(stackBeforeIf: seq<Block>, stackBeforeElse: seq<Block>, seenElse: bool)
  {
    ghost function Blocks(): set<Block> {
      Members(stackBeforeIf) + Members(stackBeforeElse)
    }

    ghost function Value(): Saved
      reads Blocks()
    {
      Saved(Values(stackBeforeIf), Values(stackBeforeElse), seenElse)
    }
  }

  /** All blocks of saved stacks. */
  ghost function SavedBlocks(ps: seq<PreprocessorInfo>): set<Block> {
    if ps == [] then {} else SavedBlocks(ps[..|ps| - 1]) + ps[|ps| - 1].Blocks()
  }

  ghost function SavedValues(ps: seq<PreprocessorInfo>): seq<Saved>
    reads SavedBlocks(ps)
  {
    if ps == [] then [] else SavedValues(ps[..|ps| - 1]) + [ps[|ps| - 1].Value()]
  }

  lemma {:induction false} SavedCount(ps: seq<PreprocessorInfo>)
    ensures |SavedValues(ps)| == |ps|
  {
    if ps != [] {
      SavedCount(ps[..|ps| - 1]);
    }
  }

  /** No two saved stacks share a block. */
  ghost predicate SavedApart(ps: seq<PreprocessorInfo>) {
    ps == []
    || (var n := |ps| - 1;
        SavedApart(ps[..n]) && Distinct(ps[n].stackBeforeElse) && ps[n].Blocks() !! SavedBlocks(ps[..n]))
  }

  lemma SavedPush(ps: seq<PreprocessorInfo>, p: PreprocessorInfo)
    ensures SavedBlocks(ps + [p]) == SavedBlocks(ps) + p.Blocks()
    ensures SavedValues(ps + [p]) == SavedValues(ps) + [p.Value()]
    ensures SavedApart(ps + [p]) <==> SavedApart(ps) && Distinct(p.stackBeforeElse) && p.Blocks() !! SavedBlocks(ps)
  {
    assert (ps + [p])[..|ps|] == ps;
  }

  lemma LastSaved(ps: seq<PreprocessorInfo>)
    requires ps != []
    ensures |SavedValues(ps)| == |ps| && SavedValues(ps)[|ps| - 1] == ps[|ps| - 1].Value()
  {
    SavedCount(ps[..|ps| - 1]);
  }

  ghost predicate Separated(stack: seq<Block>, saved: set<Block>) {
    Distinct(stack) && Members(stack) !! saved
  }

  class NestingState {
    var stack: seq<Block>
    var ppStack: seq<PreprocessorInfo>
    ghost var saved: set<Block>      // the blocks of the saved stacks

    constructor ()
      ensures Valid() && Value() == State([], []) && Blocks() == {}
    {
      stack, ppStack, saved := [], [], {};
    }

    /** No two stacks share a block: that is what the deep copies are for. */
    ghost predicate Valid()
      reads this
    {
      Separated(stack, saved) && saved == SavedBlocks(ppStack) && SavedApart(ppStack)
    }

    ghost function Value(): State
      reads this, Members(stack), SavedBlocks(ppStack)
    {
      State(Values(stack), SavedValues(ppStack))
    }

    /** All blocks. */
    ghost function Blocks(): set<Block>
      reads this
    {
      Members(stack) + saved
    }

    /** #if, #ifdef, #ifndef. */
    method OpenConditional()
      requires Valid()
      modifies this`ppStack, this`saved
      ensures Valid() && Value() == Preprocess(old(Value()), If) && fresh(Blocks() - old(Blocks()))
    {
      hide Values, SavedBlocks, SavedValues, SavedApart;
      var copy := DeepCopy(stack);
      var p := PreprocessorInfo(copy, [], false);
      SavedPush(ppStack, p);
      ppStack := ppStack + [p];
      saved := saved + p.Blocks();
    }

    /** The first #else or #elif: what the first arm has left is what will stay. */
    method KeepFirstArm()
      requires Valid() && ppStack != [] && !ppStack[|ppStack| - 1].seenElse
      modifies this`ppStack, this`saved
      ensures Valid() && ppStack != [] && ppStack[|ppStack| - 1].stackBeforeIf == old(ppStack[|ppStack| - 1].stackBeforeIf)
      ensures old(Value()).pps != []
      ensures var pps := old(Value()).pps;
        Value().pps == pps[|pps| - 1 := pps[|pps| - 1].(seenElse := true, beforeElse := old(Values(stack)))]
      ensures fresh(saved - old(saved))
    {
      hide Values, SavedBlocks, SavedValues, SavedApart;
      ghost var ps := ppStack[..|ppStack| - 1];
      var p := ppStack[|ppStack| - 1];
      SavedCount(ps);
      SavedPush(ps, p);
      assert ppStack == ps + [p];
      var copy := DeepCopy(stack);
      var p1 := p.(seenElse := true, stackBeforeElse := copy);
      SavedPush(ps, p1);
      ppStack := ppStack[|ppStack| - 1 := p1];
      assert ppStack == ps + [p1];
      saved := SavedBlocks(ps) + p1.Blocks();
    }

    /** #else, #elif. */
    method OtherArm()
      requires Valid() && ppStack != []
      modifies this
      ensures Valid() && Value() == Preprocess(old(Value()), Else) && fresh(Blocks() - old(Blocks()))
    {
      hide SavedBlocks, SavedValues, SavedApart, Separated;
      ghost var pps := Value().pps;
      LastSaved(ppStack);
      if !ppStack[|ppStack| - 1].seenElse {
        KeepFirstArm();
      }
      RestoreStack();
      assert Value().pps == Preprocess(old(Value()), Else).pps;
    }

    /** The stack as it was before the #if. */
    method RestoreStack()
      requires Valid() && ppStack != []
      modifies this`stack
      ensures Valid() && Value().pps == old(Value()).pps != [] && fresh(Members(stack))
      ensures Value().stack == Value().pps[|Value().pps| - 1].beforeIf
    {
      hide Values, SavedBlocks, SavedValues, SavedApart;
      LastSaved(ppStack);
      stack := DeepCopy(ppStack[|ppStack| - 1].stackBeforeIf);
    }

    /** #endif. */
    method CloseConditional()
      requires Valid() && ppStack != []
      modifies this
      ensures Valid() && Value() == Preprocess(old(Value()), Endif) && fresh(Blocks() - old(Blocks()))
    {
      hide Values, SavedBlocks, SavedValues, SavedApart;
      ghost var ps := ppStack[..|ppStack| - 1];
      var p := ppStack[|ppStack| - 1];
      SavedCount(ps);
      SavedPush(ps, p);
      assert ppStack == ps + [p];
      if p.seenElse {
        stack := p.stackBeforeElse;
      }
      ppStack := ppStack[..|ppStack| - 1];
      saved := SavedBlocks(ps);
    }

    /** UpdatePreprocessor. */
    method UpdatePreprocessor(d: Directive)
      requires Valid()
      modifies this
      ensures Valid() && Value() == Preprocess(old(Value()), d) && fresh(Blocks() - old(Blocks()))
    {
      SavedCount(ppStack);
      match d {
        case If => OpenConditional();
        case Else =>
          if ppStack != [] {
            OtherArm();
          }
        case Endif =>
          if ppStack != [] {
            CloseConditional();
          }
        case NoDirective =>
      }
    }

    /** The rest of Update: what it does in place to the blocks of the stack shows in no saved stack. */
    method UpdateStack(line: Line)
      requires Valid()
      modifies this`stack, Members(stack)
      ensures Valid() && Value() == old(Value()).(stack := Ordinary(old(Value()).stack, line)) && fresh(Blocks() - old(Blocks()))
    {
      hide Ordinary, Values, SavedBlocks, SavedValues, SavedApart, Distinct;
      stack := UpdateBlocks(stack, line);
    }

    /** Update. */
    method UpdateLine(line: Line)
      requires Valid()
      modifies this, Blocks()
      ensures Valid() && Value() == Update(old(Value()), line) && fresh(Blocks() - old(Blocks()))
    {
      hide Ordinary, Preprocess, SavedBlocks, SavedValues, SavedApart;
      UpdatePreprocessor(line.directive);
      UpdateStack(line);
    }
  }

  /** The state after all lines of a file. */
  method CheckLines(lines: seq<Line>) returns (n: NestingState)
    ensures fresh(n) && n.Valid() && n.Value() == UpdateAll(State([], []), lines)
    ensures ContextOf(lines) == [] ==> n.Value() == State(OrdinaryAll([], FirstArms(lines)), [])
  {
    hide Update, SavedBlocks, SavedValues, SavedApart;
    n := new NestingState();
    var i := 0;
    while i < |lines|
      invariant 0 <= i <= |lines| && fresh(n) && n.Valid() && n.Value() == UpdateAll(State([], []), lines[..i])
      invariant fresh(n.Blocks())
    {
      assert lines[..i + 1][..i] == lines[..i];
      n.UpdateLine(lines[i]);
      i := i + 1;
    }
    assert lines[..i] == lines;
    if ContextOf(lines) == [] {
      FirstArmsOnly([], lines);
    }
  }
}
