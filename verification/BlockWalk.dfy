/**
 Two walks over the blocks of a project: the recursive measurer, with its limits and its
 structural maxima, and the explicit-stack count of decision sites. Both see the same blocks.
 */
module BlockWalk {
  import opened Options
  import opened Wrappers

  const MAX_BLOCKS := 20000
  const MAX_DEPTH := 150
  const MAX_ELSE_IF := 1000

  datatype Kind = If | WhileUntil | Until | Repeat | RepeatExt | TakeOff(variant: nat) | OtherKind(name: string)

  /** Input names, as far as the two tools tell them apart. */
  datatype Name = IfSlot(index: nat) | ElseSlot | StatementSlot | ValueSlot {
    predicate Statement() { ElseSlot? || StatementSlot? }
  }

  datatype Flag = NoFlag | Flag(set_: bool) | BadFlag
  datatype Count = NoCount | Count(n: int) | BadCount
  datatype Extra = NoExtra | BadExtra | Extra(hasElse: Flag, elseIf: Count)

  /** A connected block hides the shadow behind it. */
  datatype Input = Input(name: Name, block: Option<Block>, shadow: Option<Block>) {
    function Child(): Option<Block> {
      if block.Some? then block else shadow
    }
  }

  /** A serialized block; an absent id or type is empty. */
  datatype Block = Block(kind: Kind, id: string, inputs: seq<Input>, extra: Extra, next: Option<Block>)

  datatype Refusal = TooDeep | BadIdentifier | TooManyBlocks | BadExtraState

  // ---------- the slots of one IF ----------

  predicate GoodExtra(e: Extra) {
    match e
    case NoExtra => true
    case BadExtra => false
    case Extra(hasElse, elseIf) =>
          !hasElse.BadFlag? && !elseIf.BadCount? && (elseIf.Count? ==> 0 <= elseIf.n <= MAX_ELSE_IF)
  }

  function Configured(e: Extra): nat
    requires GoodExtra(e)
  {
    if e.Extra? && e.elseIf.Count? then e.elseIf.n else 0
  }

  function MaxIndex(inputs: seq<Input>): nat {
    if inputs == [] then 0
    else
      var rest, name := MaxIndex(inputs[..|inputs| - 1]), inputs[|inputs| - 1].name;
      if name.IfSlot? && name.index > rest then name.index else rest
  }

  function MaxNat(a: nat, b: nat): nat {
    if a >= b then a else b
  }

  function Tests(b: Block): (n: nat)
    requires GoodExtra(b.extra)
    ensures n >= 1
  {
    MaxNat(1 + Configured(b.extra), MaxIndex(b.inputs) + 1)
  }

  predicate HasElse(b: Block) {
    (exists i :: 0 <= i < |b.inputs| && b.inputs[i].name == ElseSlot)
        || (b.extra.Extra? && b.extra.hasElse == Flag(true))
  }

  /** A state is good when it is absent, or has no malformed part and at most 1000 further tests. */
  lemma GoodMeans(e: Extra)
    ensures GoodExtra(e) <==>
              e.NoExtra? || (e.Extra? && (e.hasElse.NoFlag? || e.hasElse.Flag?)
                             && (e.elseIf.NoCount? || (e.elseIf.Count? && 0 <= e.elseIf.n <= 1000)))
  {
  }

  /** An IF has more tests than its state counts and than any index among its inputs, at least one, and no more. */
  lemma {:induction false} TestsAreLeast(b: Block)
    requires GoodExtra(b.extra)
    ensures b.extra.Extra? && b.extra.elseIf.Count? ==> b.extra.elseIf.n < Tests(b)
    ensures forall i :: 0 <= i < |b.inputs| && b.inputs[i].name.IfSlot? ==> b.inputs[i].name.index < Tests(b)
    ensures Tests(b) > 1 ==>
              (b.extra.Extra? && b.extra.elseIf.Count? && Tests(b) == b.extra.elseIf.n + 1)
              || exists i :: 0 <= i < |b.inputs| && b.inputs[i].name == IfSlot(Tests(b) - 1)
  {
    MaxIndexMeans(b.inputs);
    hide MaxIndex;
  }

  lemma {:induction false} MaxIndexMeans(inputs: seq<Input>)
    ensures forall i :: 0 <= i < |inputs| && inputs[i].name.IfSlot? ==> inputs[i].name.index <= MaxIndex(inputs)
    ensures MaxIndex(inputs) > 0 ==> exists i :: 0 <= i < |inputs| && inputs[i].name == IfSlot(MaxIndex(inputs))
  {
    if inputs != [] {
      var n := |inputs| - 1;
      MaxIndexMeans(inputs[..n]);
      if MaxIndex(inputs) > 0 && MaxIndex(inputs) == MaxIndex(inputs[..n]) {
        var i :| 0 <= i < n && inputs[..n][i].name == IfSlot(MaxIndex(inputs));
        assert inputs[i].name == IfSlot(MaxIndex(inputs));
      }
    }
  }

  /** The else slot is there when it is connected or the state says so. */
  lemma HasElseMeans(b: Block)
    ensures HasElse(b) <==>
              (exists i :: 0 <= i < |b.inputs| && b.inputs[i].name.ElseSlot?)
              || (b.extra.Extra? && b.extra.hasElse.Flag? && b.extra.hasElse.set_)
  {
    if i :| 0 <= i < |b.inputs| && b.inputs[i].name.ElseSlot? {
      assert b.inputs[i].name == ElseSlot;
    }
  }

  /** A shadow is seen exactly when nothing is connected; slots for tests and values hold no statements. */
  lemma InputMeans(input: Input, child: Block)
    ensures input.Child() == Some(child) <==>
              input.block == Some(child) || (input.block == None && input.shadow == Some(child))
    ensures input.name.Statement() <==> !input.name.IfSlot? && !input.name.ValueSlot?
  {
  }

  // ---------- what a block contains ----------

  /** Blocks with their kinds and identifiers, the IF slots among them, and how many IF states are malformed. */
  datatype Content = Content(blocks: multiset<Block>, kinds: multiset<Kind>, ids: multiset<string>, tests: nat,
      elses: nat, bad: nat)

  const NOTHING := Content(multiset{}, multiset{}, multiset{}, 0, 0, 0)

  function Plus(a: Content, b: Content): Content {
    Content(a.blocks + b.blocks, a.kinds + b.kinds, a.ids + b.ids, a.tests + b.tests, a.elses + b.elses, a.bad + b.bad)
  }

  function Own(b: Block): Content {
    var isIf, good := b.kind == If, GoodExtra(b.extra);
    Content(multiset{b}, multiset{b.kind}, multiset{b.id}, if isIf && good then Tests(b) else 0,
            if isIf && good && HasElse(b) then 1 else 0, if isIf && !good then 1 else 0)
  }

  function ContentOf(b: Block): Content
    decreases b, |b.inputs| + 1
  {
    Plus(Plus(Own(b), InputsContent(b, |b.inputs|)), if b.next.Some? then ContentOf(b.next.value) else NOTHING)
  }

  /** The content of the first n inputs. */
  function InputsContent(b: Block, n: nat): Content
    requires n <= |b.inputs|
    decreases b, n
  {
    if n == 0 then NOTHING
    else
      var child := b.inputs[n - 1].Child();
      Plus(InputsContent(b, n - 1), if child.Some? then ContentOf(child.value) else NOTHING)
  }

  function Together(bs: seq<Block>): Content {
    if bs == [] then NOTHING else Plus(Together(bs[..|bs| - 1]), ContentOf(bs[|bs| - 1]))
  }

  lemma PlusLaws(a: Content, b: Content, c: Content)
    ensures Plus(Plus(a, b), c) == Plus(a, Plus(b, c)) && Plus(a, b) == Plus(b, a) && Plus(a, NOTHING) == a
  {
  }

  lemma {:induction false} TogetherAppend(a: seq<Block>, b: seq<Block>)
    ensures Together(a + b) == Plus(Together(a), Together(b))
    decreases |b|
  {
    if b == [] {
      assert a + b == a;
      PlusLaws(Together(a), NOTHING, NOTHING);
    } else {
      var front, last := b[..|b| - 1], b[|b| - 1];
      assert (a + b)[..|a + b| - 1] == a + front;
      TogetherAppend(a, front);
      PlusLaws(Together(a), Together(front), ContentOf(last));
      hide Plus;
      hide ContentOf;
    }
  }

  lemma TogetherOne(b: Block)
    ensures Together([b]) == ContentOf(b)
  {
    assert [b][..0] == [];
    PlusLaws(ContentOf(b), NOTHING, NOTHING);
    hide ContentOf;
  }

  // ---------- the explicit stack ----------

  datatype Sites = Sites(ifBlocks: nat, ifTests: nat, elseIfTests: nat, elses: nat, guards: nat, conditional: nat,
      loops: nat)

  function SitesOf(c: Content): Sites
    requires c.tests >= c.kinds[If]
  {
    var guards := c.kinds[WhileUntil] + c.kinds[Until];
    Sites(c.kinds[If], c.tests, c.tests - c.kinds[If], c.elses, guards, c.tests + guards, c.kinds[RepeatExt]
        + c.kinds[Repeat])
  }

  function Children(b: Block, n: nat): seq<Block>
    requires n <= |b.inputs|
  {
    if n == 0 then []
    else
      var child := b.inputs[n - 1].Child();
      Children(b, n - 1) + if child.Some? then [child.value] else []
  }

  lemma {:induction false} ChildrenContent(b: Block, n: nat)
    requires n <= |b.inputs|
    ensures Together(Children(b, n)) == InputsContent(b, n)
  {
    hide ContentOf;
    hide Plus;
    hide Input.Child;
    if n > 0 {
      hide Together;
      ChildrenContent(b, n - 1);
      var child := b.inputs[n - 1].Child();
      if child.Some? {
        TogetherAppend(Children(b, n - 1), [child.value]);
        TogetherOne(child.value);
      } else {
        PlusLaws(InputsContent(b, n - 1), NOTHING, NOTHING);
        assert Children(b, n) == Children(b, n - 1);
      }
    }
  }

  /** Taking a block off the stack and pushing its children and successor moves its own content out of the stack. */
  lemma Unstacked(stack: seq<Block>)
    requires stack != []
    ensures var b := stack[|stack| - 1];
            var rest := stack[..|stack| - 1] + Children(b, |b.inputs|) + (if b.next.Some? then [b.next.value] else []);
            Together(stack) == Plus(Own(b), Together(rest))
  {
    var front, b := stack[..|stack| - 1], stack[|stack| - 1];
    var children := Children(b, |b.inputs|);
    var tail := if b.next.Some? then [b.next.value] else [];
    ChildrenContent(b, |b.inputs|);
    TogetherAppend(front, children);
    TogetherAppend(front + children, tail);
    if b.next.Some? {
      TogetherOne(b.next.value);
    }
    var f, o, i, t := Together(front), Own(b), Together(children), Together(tail);
    assert ContentOf(b) == Plus(Plus(o, i), t);
    hide *;
    assert Together(stack) == Plus(f, Plus(Plus(o, i), t));
    PlusShuffle(f, o, i, t);
  }

  lemma PlusShuffle(f: Content, o: Content, i: Content, t: Content)
    ensures Plus(f, Plus(Plus(o, i), t)) == Plus(o, Plus(Plus(f, i), t))
  {
  }

  /** Adding one block to the counters. */
  function Counted(s: Sites, b: Block): Sites
    requires b.kind == If ==> GoodExtra(b.extra)
  {
    match b.kind
    case If =>
      s.(ifBlocks := s.ifBlocks + 1, ifTests := s.ifTests + Tests(b), elseIfTests := s.elseIfTests + Tests(b) - 1,
         elses := s.elses + if HasElse(b) then 1 else 0)
    case WhileUntil => s.(guards := s.guards + 1)
    case Until => s.(guards := s.guards + 1)
    case Repeat => s.(loops := s.loops + 1)
    case RepeatExt => s.(loops := s.loops + 1)
    case _ => s
  }

  /** The counters say what the visited blocks contain, but for the sum taken at the end. */
  predicate Counts(s: Sites, c: Content) {
    c.tests >= c.kinds[If] && s == SitesOf(c).(conditional := 0)
  }

  lemma CountedOneMore(s: Sites, c: Content, b: Block)
    requires Counts(s, c) && (b.kind == If ==> GoodExtra(b.extra))
    ensures Counts(Counted(s, b), Plus(c, Own(b)))
  {
    hide Tests;
    hide HasElse;
    hide GoodExtra;
  }

  /** The walk ends, visits every block of the project once, and counts exactly the sites among them. */
  method CountDecisionSites(roots: seq<Block>) returns (r: Result<Sites, Refusal>, ghost visited: Content)
    ensures r.Ok? <==> Together(roots).bad == 0
    ensures r.Ok? ==> visited == Together(roots) && visited.tests >= visited.kinds[If] && r.value == SitesOf(visited)
  {
    hide Own;
    hide Plus;
    hide Together;
    hide Counted;
    hide Counts;
    var totals, stack := Sites(0, 0, 0, 0, 0, 0, 0), roots;
    visited := NOTHING;
    NothingCounted(roots);
    while stack != []
      invariant Plus(visited, Together(stack)) == Together(roots)
      invariant Counts(totals, visited) && visited.bad == 0
      decreases |Together(stack).blocks|
    {
      var b := stack[|stack| - 1];
      Unstacked(stack);
      ghost var rest := stack[..|stack| - 1] + Children(b, |b.inputs|) + (if b.next.Some? then [b.next.value] else []);
      OneVisited(visited, b, Together(rest));
      if b.kind == If && !GoodExtra(b.extra) {
        return Err(BadExtraState), visited;
      }
      CountedOneMore(totals, visited, b);
      totals := Counted(totals, b);
      visited := Plus(visited, Own(b));
      stack := stack[..|stack| - 1] + Children(b, |b.inputs|);
      if b.next.Some? {
        stack := stack + [b.next.value];
      }
      assert stack == rest;
    }
    AllVisited(totals, visited);
    totals := totals.(conditional := totals.ifTests + totals.guards);
    return Ok(totals), visited;
  }

  lemma NothingCounted(roots: seq<Block>)
    ensures Counts(Sites(0, 0, 0, 0, 0, 0, 0), NOTHING) && Plus(NOTHING, Together(roots)) == Together(roots)
  {
    hide Together;
  }

  lemma OneVisited(visited: Content, b: Block, rest: Content)
    ensures Plus(visited, Plus(Own(b), rest)) == Plus(Plus(visited, Own(b)), rest)
    ensures |Plus(Own(b), rest).blocks| == |rest.blocks| + 1
    ensures (b.kind == If && !GoodExtra(b.extra)) ==> Plus(visited, Plus(Own(b), rest)).bad > 0
    ensures !(b.kind == If && !GoodExtra(b.extra)) ==> Plus(visited, Own(b)).bad == visited.bad
  {
    hide GoodExtra;
    hide Tests;
  }

  lemma AllVisited(totals: Sites, visited: Content)
    requires Counts(totals, visited)
    ensures Plus(visited, Together([])) == visited && visited.tests >= visited.kinds[If]
    ensures totals.(conditional := totals.ifTests + totals.guards) == SitesOf(visited)
  {
  }

  // ---------- the recursive measurer ----------

  /** The content with the deepest nestings and the longest chain seen. */
  datatype Shape = Shape(content: Content, input: nat, statement: nat, longest: nat)

  const FLAT := Shape(NOTHING, 0, 0, 0)

  function Join(a: Shape, b: Shape): Shape {
    Shape(Plus(a.content, b.content), MaxNat(a.input, b.input), MaxNat(a.statement, b.statement),
        MaxNat(a.longest, b.longest))
  }

  function Chain(b: Block): nat
    decreases b
  {
    1 + if b.next.Some? then Chain(b.next.value) else 0
  }

  /** One visit: the shape of a chain seen at a nesting, its own length included. */
  function Visited(b: Block, nesting: nat, statement: nat): Shape
    decreases b, |b.inputs| + 2
  {
    Join(ChainShape(b, nesting, statement), Shape(NOTHING, 0, 0, Chain(b)))
  }

  function ChainShape(b: Block, nesting: nat, statement: nat): Shape
    decreases b, |b.inputs| + 1
  {
    Join(Join(Shape(Own(b), nesting, statement, 0), InputsShape(b, |b.inputs|, nesting, statement)),
         if b.next.Some? then ChainShape(b.next.value, nesting, statement) else FLAT)
  }

  function InputsShape(b: Block, n: nat, nesting: nat, statement: nat): Shape
    requires n <= |b.inputs|
    decreases b, n
  {
    if n == 0 then FLAT
    else
      var child, deeper := b.inputs[n - 1].Child(), if b.inputs[n - 1].name.Statement() then 1 else 0;
      Join(InputsShape(b, n - 1, nesting, statement),
           if child.Some? then Visited(child.value, nesting + 1, statement + deeper) else FLAT)
  }

  function RootsShape(roots: seq<Block>): Shape {
    if roots == [] then FLAT else Join(RootsShape(roots[..|roots| - 1]), Visited(roots[|roots| - 1], 0, 0))
  }

  /** Identifiers present and distinct, not too many blocks, not too deep. */
  ghost predicate Acceptable(s: Shape) {
    && "" !in s.content.ids && (forall id :: s.content.ids[id] <= 1)
    && |s.content.blocks| <= MAX_BLOCKS && s.input <= MAX_DEPTH
  }

  lemma JoinLaws(a: Shape, b: Shape, c: Shape)
    ensures Join(Join(a, b), c) == Join(a, Join(b, c)) && Join(a, FLAT) == a
  {
  }

  lemma JoinAcceptable(a: Shape, b: Shape)
    requires Acceptable(Join(a, b))
    ensures Acceptable(a)
  {
    forall id
      ensures a.content.ids[id] <= 1
    {
      assert Join(a, b).content.ids[id] == a.content.ids[id] + b.content.ids[id];
    }
  }

  lemma OwnIs(b: Block)
    ensures Own(b).blocks == multiset{b} && Own(b).kinds == multiset{b.kind} && Own(b).ids == multiset{b.id}
  {
  }

  class Measurer {
    var counts: multiset<Kind>
    var blockIds: set<string>
    var instances: nat
    var maxInput: nat
    var maxStatement: nat
    var maxChain: nat
    ghost var content: Content

    ghost function Now(): Shape
      reads this
    {
      Shape(content, maxInput, maxStatement, maxChain)
    }

    ghost predicate Valid()
      reads this
    {
      && counts == content.kinds && instances == |content.blocks|
      && (forall id :: id in blockIds <==> id in content.ids)
    }

    constructor ()
      ensures Valid() && Now() == FLAT
    {
      counts, blockIds, instances := multiset{}, {}, 0;
      maxInput, maxStatement, maxChain := 0, 0, 0;
      content := NOTHING;
    }

    /** Checks and counts one block. */
    method Enter(b: Block, nesting: nat, statement: nat) returns (r: Option<Refusal>)
      requires Valid() && Acceptable(Now()) && nesting <= MAX_DEPTH
      modifies this
      ensures Valid()
      ensures r.None? <==> Acceptable(Join(old(Now()), Shape(Own(b), nesting, statement, 0)))
      ensures r.None? ==> Now() == Join(old(Now()), Shape(Own(b), nesting, statement, 0))
    {
      OwnIs(b);
      hide Own;
      if b.id == "" || b.id in blockIds {
        assert Join(Now(), Shape(Own(b), nesting, statement, 0)).content.ids[b.id] == content.ids[b.id] + 1;
        return Some(BadIdentifier);
      }
      blockIds := blockIds + {b.id};
      instances := instances + 1;
      counts := counts + multiset{b.kind};
      content := Plus(content, Own(b));
      if instances > MAX_BLOCKS {
        return Some(TooManyBlocks);
      }
      maxInput := MaxNat(maxInput, nesting);
      maxStatement := MaxNat(maxStatement, statement);
      return None;
    }

    /** Visits the inputs of one block, each one level deeper. */
    method VisitInputs(b: Block, nesting: nat, statement: nat) returns (r: Option<Refusal>)
      requires Valid() && Acceptable(Now())
      modifies this
      ensures Valid()
      ensures r.None? <==> Acceptable(Join(old(Now()), InputsShape(b, |b.inputs|, nesting, statement)))
      ensures r.None? ==> Now() == Join(old(Now()), InputsShape(b, |b.inputs|, nesting, statement))
      decreases b, 0
    {
      hide Acceptable;
      hide Join;
      hide Visited;
      hide Measurer.Now;
      hide Measurer.Valid;
      JoinLaws(Now(), FLAT, FLAT);
      for n := 0 to |b.inputs|
        invariant Valid() && Acceptable(Now())
        invariant Now() == Join(old(Now()), InputsShape(b, n, nesting, statement))
      {
        var child, deeper := b.inputs[n].Child(), if b.inputs[n].name.Statement() then 1 else 0;
        InputJoins(old(Now()), b, n, nesting, statement);
        if child.Some? {
          var visited := Visit(child.value, nesting + 1, statement + deeper);
          if visited.Err? {
            InputRefused(old(Now()), b, n, |b.inputs|, nesting, statement);
            return Some(visited.error);
          }
        }
      }
      return None;
    }

    /** Walks the chain that starts at first. */
    method Visit(first: Block, nesting: nat, statement: nat) returns (r: Result<nat, Refusal>)
      requires Valid() && Acceptable(Now())
      modifies this
      ensures Valid()
      ensures r.Ok? <==> Acceptable(Join(old(Now()), Visited(first, nesting, statement)))
      ensures r.Ok? ==> Now() == Join(old(Now()), Visited(first, nesting, statement)) && r.value == Chain(first)
      decreases first, 1
    {
      hide Acceptable;
      hide Join;
      hide ChainShape;
      hide InputsShape;
      hide Own;
      hide Visited;
      if nesting > MAX_DEPTH {
        TooDeepRefused(Now(), first, nesting, statement);
        return Err(TooDeep);
      }
      hide Measurer.Now;
      hide Measurer.Valid;
      ghost var start := Now();
      var block, chain := Some(first), 0;
      while block.Some?
        invariant Valid() && Acceptable(Now())
        invariant Join(Now(), RestShape(block, nesting, statement)) ==
                  Join(start, ChainShape(first, nesting, statement))
        invariant chain + (if block.Some? then Chain(block.value) else 0) == Chain(first)
        invariant block.Some? ==> block.value == first || block.value < first
        decreases block
      {
        var b := block.value;
        ChainJoins(Now(), b, nesting, statement);
        BlockRefused(Now(), b, nesting, statement);
        VisitRefused(start, first, nesting, statement);
        var failed := Enter(b, nesting, statement);
        if failed.Some? {
          return Err(failed.value);
        }
        failed := VisitInputs(b, nesting, statement);
        if failed.Some? {
          return Err(failed.value);
        }
        chain := chain + 1;
        block := b.next;
      }
      JoinLaws(Now(), FLAT, FLAT);
      NoteChain(chain);
      VisitEnds(start, first, nesting, statement);
      return Ok(chain);
    }

    method NoteChain(chain: nat)
      requires Valid()
      modifies this`maxChain
      ensures Valid() && Now() == Join(old(Now()), Shape(NOTHING, 0, 0, chain))
    {
      PlusLaws(content, NOTHING, NOTHING);
      maxChain := MaxNat(maxChain, chain);
    }
  }

  function RestShape(block: Option<Block>, nesting: nat, statement: nat): Shape {
    if block.Some? then ChainShape(block.value, nesting, statement) else FLAT
  }

  lemma RefusedWithin(a: Shape, part: Shape, rest: Shape)
    requires !Acceptable(Join(a, part))
    ensures !Acceptable(Join(a, Join(part, rest)))
  {
    JoinLaws(a, part, rest);
    if Acceptable(Join(Join(a, part), rest)) {
      JoinAcceptable(Join(a, part), rest);
    }
  }

  lemma InputJoins(a: Shape, b: Block, n: nat, nesting: nat, statement: nat)
    requires n < |b.inputs|
    ensures var child, deeper := b.inputs[n].Child(), if b.inputs[n].name.Statement() then 1 else 0;
            Join(a, InputsShape(b, n + 1, nesting, statement)) ==
              if child.Some? then Join(Join(a, InputsShape(b, n, nesting, statement)),
                  Visited(child.value, nesting + 1, statement + deeper))
              else Join(a, InputsShape(b, n, nesting, statement))
  {
    var child, deeper := b.inputs[n].Child(), if b.inputs[n].name.Statement() then 1 else 0;
    var before := InputsShape(b, n, nesting, statement);
    if child.Some? {
      JoinLaws(a, before, Visited(child.value, nesting + 1, statement + deeper));
    } else {
      JoinLaws(before, FLAT, FLAT);
    }
    hide Join;
    hide Visited;
  }

  lemma {:induction false} InputRefused(a: Shape, b: Block, n: nat, m: nat, nesting: nat, statement: nat)
    requires n < m <= |b.inputs| && !Acceptable(Join(a, InputsShape(b, n + 1, nesting, statement)))
    ensures !Acceptable(Join(a, InputsShape(b, m, nesting, statement)))
  {
    hide Acceptable;
    hide Join;
    hide Visited;
    if n + 1 < m {
      InputRefused(a, b, n, m - 1, nesting, statement);
      var child, deeper := b.inputs[m - 1].Child(), if b.inputs[m - 1].name.Statement() then 1 else 0;
      RefusedWithin(a, InputsShape(b, m - 1, nesting, statement),
                    if child.Some? then Visited(child.value, nesting + 1, statement + deeper) else FLAT);
    }
  }

  lemma ChainJoins(a: Shape, b: Block, nesting: nat, statement: nat)
    ensures Join(Join(Join(a, Shape(Own(b), nesting, statement, 0)), InputsShape(b, |b.inputs|, nesting, statement)),
                 RestShape(b.next, nesting, statement)) == Join(a, ChainShape(b, nesting, statement))
  {
    var one, inputs, next := Shape(Own(b), nesting, statement, 0), InputsShape(b, |b.inputs|, nesting, statement),
        RestShape(b.next, nesting, statement);
    assert ChainShape(b, nesting, statement) == Join(Join(one, inputs), next);
    hide *;
    JoinLaws(a, one, inputs);
    JoinLaws(a, Join(one, inputs), next);
  }

  /** A block that cannot be entered, or whose inputs cannot be visited, makes its chain unacceptable. */
  lemma BlockRefused(a: Shape, b: Block, nesting: nat, statement: nat)
    ensures var entered := Join(a, Shape(Own(b), nesting, statement, 0));
            (!Acceptable(entered) || !Acceptable(Join(entered, InputsShape(b, |b.inputs|, nesting, statement)))) ==>
              !Acceptable(Join(a, ChainShape(b, nesting, statement)))
  {
    var one, inputs, next := Shape(Own(b), nesting, statement, 0), InputsShape(b, |b.inputs|, nesting, statement),
        RestShape(b.next, nesting, statement);
    ChainJoins(a, b, nesting, statement);
    hide *;
    if Acceptable(Join(a, ChainShape(b, nesting, statement))) {
      JoinAcceptable(Join(Join(a, one), inputs), next);
      JoinAcceptable(Join(a, one), inputs);
    }
  }

  lemma VisitRefused(a: Shape, first: Block, nesting: nat, statement: nat)
    ensures !Acceptable(Join(a, ChainShape(first, nesting, statement))) ==>
              !Acceptable(Join(a, Visited(first, nesting, statement)))
  {
    var chain, noted := ChainShape(first, nesting, statement), Shape(NOTHING, 0, 0, Chain(first));
    assert Visited(first, nesting, statement) == Join(chain, noted);
    hide *;
    if !Acceptable(Join(a, chain)) {
      RefusedWithin(a, chain, noted);
    }
  }

  lemma TooDeepRefused(a: Shape, first: Block, nesting: nat, statement: nat)
    requires nesting > MAX_DEPTH
    ensures !Acceptable(Join(a, Visited(first, nesting, statement)))
  {
  }

  lemma VisitEnds(a: Shape, first: Block, nesting: nat, statement: nat)
    ensures var chain := Join(a, ChainShape(first, nesting, statement));
            Join(chain, Shape(NOTHING, 0, 0, Chain(first))) == Join(a, Visited(first, nesting, statement))
            && (Acceptable(chain) <==> Acceptable(Join(a, Visited(first, nesting, statement))))
  {
    var shape, noted := ChainShape(first, nesting, statement), Shape(NOTHING, 0, 0, Chain(first));
    assert Visited(first, nesting, statement) == Join(shape, noted);
    hide *;
    JoinLaws(a, shape, noted);
    NotingIsFree(Join(a, shape), Chain(first));
  }

  lemma NotingIsFree(s: Shape, n: nat)
    ensures Acceptable(Join(s, Shape(NOTHING, 0, 0, n))) <==> Acceptable(s)
  {
    PlusLaws(s.content, NOTHING, NOTHING);
    hide Plus;
  }

  // ---------- the measurer as a whole ----------

  datatype Report = Report(total: nat, kinds: multiset<Kind>, stacks: nat, mainChain: Option<nat>, maxChain: nat,
      maxInput: nat, maxStatement: nat)

  function MainCandidates(roots: seq<Block>): seq<Block> {
    if roots == [] then []
    else
      var last := roots[|roots| - 1];
      MainCandidates(roots[..|roots| - 1]) + if last.kind.TakeOff? then [last] else []
  }

  method MainChain(first: Block) returns (chain: nat)
    ensures chain == Chain(first)
  {
    chain := 0;
    var item := Some(first);
    while item.Some?
      invariant chain + (if item.Some? then Chain(item.value) else 0) == Chain(first)
      decreases item
    {
      chain := chain + 1;
      item := item.value.next;
    }
  }

  lemma {:induction false} RootsRefused(roots: seq<Block>, n: nat, m: nat)
    requires n <= m <= |roots| && !Acceptable(RootsShape(roots[..n]))
    ensures !Acceptable(RootsShape(roots[..m]))
  {
    hide Acceptable;
    hide Join;
    hide Visited;
    if n < m {
      RootsRefused(roots, n, m - 1);
      assert roots[..m][..m - 1] == roots[..m - 1];
      JoinRefused(RootsShape(roots[..m - 1]), Visited(roots[m - 1], 0, 0));
    }
  }

  lemma JoinRefused(a: Shape, b: Shape)
    ensures !Acceptable(a) ==> !Acceptable(Join(a, b))
  {
    if Acceptable(Join(a, b)) {
      JoinAcceptable(a, b);
    }
  }

  /** Accepts exactly the acceptable projects, and then reports what their blocks and chains amount to. */
  method Analyze(roots: seq<Block>) returns (r: Result<Report, Refusal>)
    ensures r.Ok? <==> Acceptable(RootsShape(roots))
    ensures r.Ok? ==>
              var s := RootsShape(roots);
              && r.value.total == |s.content.blocks| && r.value.kinds == s.content.kinds && r.value.stacks == |roots|
              && r.value.maxChain == s.longest && r.value.maxInput == s.input && r.value.maxStatement == s.statement
    ensures r.Ok? && r.value.mainChain.Some? ==>
              |MainCandidates(roots)| == 1 && r.value.mainChain.value == Chain(MainCandidates(roots)[0])
    ensures r.Ok? && r.value.mainChain.None? ==> |MainCandidates(roots)| != 1
  {
    hide Acceptable;
    hide Join;
    hide Visited;
    var m := new Measurer();
    var candidates: seq<Block> := [];
    FlatIsAcceptable();
    for i := 0 to |roots|
      invariant m.Valid() && m.Now() == RootsShape(roots[..i]) && Acceptable(m.Now())
      invariant candidates == MainCandidates(roots[..i])
    {
      assert roots[..i + 1][..i] == roots[..i];
      if roots[i].kind.TakeOff? {
        candidates := candidates + [roots[i]];
      }
      var visited := m.Visit(roots[i], 0, 0);
      if visited.Err? {
        RootsRefused(roots, i + 1, |roots|);
        assert roots[..|roots|] == roots;
        return Err(visited.error);
      }
    }
    assert roots[..|roots|] == roots;
    var main := None;
    if |candidates| == 1 {
      var chain := MainChain(candidates[0]);
      main := Some(chain);
    }
    return Ok(Report(m.instances, m.counts, |roots|, main, m.maxChain, m.maxInput, m.maxStatement));
  }

  lemma FlatIsAcceptable()
    ensures Acceptable(FLAT)
  {
  }

  // ---------- the two walks agree ----------

  lemma {:induction false} ChainContent(b: Block, nesting: nat, statement: nat)
    ensures ChainShape(b, nesting, statement).content == ContentOf(b)
    ensures Visited(b, nesting, statement).content == ContentOf(b)
    decreases b, |b.inputs| + 1
  {
    InputsShapeContent(b, |b.inputs|, nesting, statement);
    if b.next.Some? {
      ChainContent(b.next.value, nesting, statement);
    }
    PlusLaws(ContentOf(b), NOTHING, NOTHING);
    hide Plus;
    hide Own;
  }

  lemma {:induction false} InputsShapeContent(b: Block, n: nat, nesting: nat, statement: nat)
    requires n <= |b.inputs|
    ensures InputsShape(b, n, nesting, statement).content == InputsContent(b, n)
    decreases b, n
  {
    hide Plus;
    hide Visited;
    hide ContentOf;
    if n > 0 {
      var child, deeper := b.inputs[n - 1].Child(), if b.inputs[n - 1].name.Statement() then 1 else 0;
      InputsShapeContent(b, n - 1, nesting, statement);
      if child.Some? {
        ChainContent(child.value, nesting + 1, statement + deeper);
      }
    }
  }

  /** The recursive measurer and the stack walk see the same blocks, with the same kinds, the same number of times. */
  lemma {:induction false} WalksSeeTheSame(roots: seq<Block>)
    ensures RootsShape(roots).content == Together(roots)
  {
    hide Plus;
    hide Visited;
    hide ContentOf;
    if roots != [] {
      WalksSeeTheSame(roots[..|roots| - 1]);
      ChainContent(roots[|roots| - 1], 0, 0);
    }
  }

  // ---------- chains fit into the whole ----------

  lemma {:induction false} ChainFits(b: Block, nesting: nat, statement: nat)
    ensures Chain(b) <= |ContentOf(b).blocks|
    ensures ChainShape(b, nesting, statement).longest <= |ContentOf(b).blocks|
    ensures Visited(b, nesting, statement).longest <= |ContentOf(b).blocks|
    ensures Chain(b) <= Visited(b, nesting, statement).longest
    decreases b, |b.inputs| + 1
  {
    ContentSize(b);
    ChainLengths(b, nesting, statement);
    hide *;
    InputsFit(b, |b.inputs|, nesting, statement);
    if b.next.Some? {
      ChainFits(b.next.value, nesting, statement);
    }
    LargerOfTwo(Chain(b), ChainShape(b, nesting, statement).longest);
  }

  lemma LargerOfTwo(a: nat, b: nat)
    ensures a <= MaxNat(b, a) && b <= MaxNat(b, a) && (MaxNat(b, a) == a || MaxNat(b, a) == b)
  {
  }

  lemma ChainLengths(b: Block, nesting: nat, statement: nat)
    ensures var inputs, rest := InputsShape(b, |b.inputs|, nesting, statement).longest,
            RestShape(b.next, nesting, statement).longest;
            && (ChainShape(b, nesting, statement).longest == inputs
               || ChainShape(b, nesting, statement).longest == rest)
            && (b.next.Some? ==> rest == ChainShape(b.next.value, nesting, statement).longest)
            && (b.next.None? ==> rest == 0)
    ensures Visited(b, nesting, statement).longest == MaxNat(ChainShape(b, nesting, statement).longest, Chain(b))
    ensures Chain(b) == 1 + if b.next.Some? then Chain(b.next.value) else 0
  {
    hide Plus;
    hide Own;
    hide InputsShape;
  }

  lemma ContentSize(b: Block)
    ensures |ContentOf(b).blocks| == 1 + |InputsContent(b, |b.inputs|).blocks|
            + (if b.next.Some? then |ContentOf(b.next.value).blocks| else 0)
  {
  }

  lemma {:induction false} InputsFit(b: Block, n: nat, nesting: nat, statement: nat)
    requires n <= |b.inputs|
    ensures InputsShape(b, n, nesting, statement).longest <= |InputsContent(b, n).blocks|
    decreases b, n
  {
    hide Visited;
    hide ContentOf;
    if n > 0 {
      var child, deeper := b.inputs[n - 1].Child(), if b.inputs[n - 1].name.Statement() then 1 else 0;
      InputsFit(b, n - 1, nesting, statement);
      if child.Some? {
        ChainFits(child.value, nesting + 1, statement + deeper);
      }
    }
  }

  /** The main chain is no longer than the longest chain, which has no more blocks than the project. */
  lemma {:induction false} ChainsAreOrdered(roots: seq<Block>)
    ensures RootsShape(roots).longest <= |Together(roots).blocks|
    ensures forall i :: 0 <= i < |roots| ==> Chain(roots[i]) <= RootsShape(roots).longest
    ensures forall i :: 0 <= i < |MainCandidates(roots)| ==>
              Chain(MainCandidates(roots)[i]) <= RootsShape(roots).longest
  {
    hide Visited;
    hide ContentOf;
    hide Chain;
    CandidatesAreRoots(roots);
    hide MainCandidates;
    if roots != [] {
      ChainsAreOrdered(roots[..|roots| - 1]);
      ChainFits(roots[|roots| - 1], 0, 0);
      JoinSizes(RootsShape(roots[..|roots| - 1]), Visited(roots[|roots| - 1], 0, 0));
      hide Join;
      hide Plus;
    }
  }

  lemma {:induction false} CandidatesAreRoots(roots: seq<Block>)
    ensures forall i :: 0 <= i < |MainCandidates(roots)| ==> MainCandidates(roots)[i] in roots
  {
    if roots != [] {
      CandidatesAreRoots(roots[..|roots| - 1]);
    }
  }

  lemma JoinSizes(a: Shape, b: Shape)
    ensures a.longest <= Join(a, b).longest && b.longest <= Join(a, b).longest
    ensures Join(a, b).longest == a.longest || Join(a, b).longest == b.longest
  {
  }
}
