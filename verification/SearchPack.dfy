/** Search requests: from the infix list of entries to the prefix list that goes
    to the server (proto/search.go, PackRequest). */
module SearchPack {

  datatype Operator = AND | OR | NOT

  datatype Entry =
    | StringEntry(value: string, tag: seq<bv8>)
    | NumericEntry(number: nat, operator: bv8, id: bv8)
    | OperatorEntry(op: Operator)
    | OpenParen
    | CloseParen
  {
    predicate IsValue() {
      StringEntry? || NumericEntry?
    }

    predicate IsParen() {
      OpenParen? || CloseParen?
    }
  }

  datatype PackError = IncorrectParens | IncorrectParens2 | IncorrectParens3

  datatype Packed = Request(entries: seq<Entry>) | Refused(error: PackError)

  /** The operators and close parens met so far, and the request built so far. */
  datatype PackState = PackState(stack: seq<Entry>, result: seq<Entry>)

  function Top(s: seq<Entry>): Entry
    requires s != []
  {
    s[|s| - 1]
  }

  function Pop(s: seq<Entry>): seq<Entry>
    requires s != []
  {
    s[..|s| - 1]
  }

  datatype Step = Continue(state: PackState) | Stop(error: PackError)

  /** Moves entries from the stack to the request down to the first close paren, and drops that. */
  function Unroll(st: PackState): Step
    requires st.stack != []
    decreases |st.stack|
  {
    if Top(st.stack).CloseParen? then Continue(st.(stack := Pop(st.stack)))
    else
      var next := PackState(Pop(st.stack), [Top(st.stack)] + st.result);
      if next.stack == [] then Stop(IncorrectParens2) else Unroll(next)
  }

  function PackEntry(st: PackState, e: Entry): Step {
    match e
    case StringEntry(_, _) => Continue(st.(result := [e] + st.result))
    case NumericEntry(_, _, _) => Continue(st.(result := [e] + st.result))
    case OperatorEntry(_) =>
      var popped := if st.stack != [] && Top(st.stack).OperatorEntry?
                    then PackState(Pop(st.stack), [Top(st.stack)] + st.result) else st;
      Continue(popped.(stack := popped.stack + [e]))
    case OpenParen => if st.stack == [] then Stop(IncorrectParens) else Unroll(st)
    case CloseParen => Continue(st.(stack := st.stack + [e]))
  }

  /** Only the bottom of the stack is looked at in the end. */
  function Finish(st: PackState): Packed {
    if st.stack == [] then Request(st.result)
    else if st.stack[0].IsParen() then Refused(IncorrectParens3)
    else Request([st.stack[0]] + st.result)
  }

  /** Takes the entries from right to left. */
  function PackAll(source: seq<Entry>, st: PackState): Step
    decreases |source|, 0
  {
    if source == [] then Continue(st) else Then(Pop(source), PackEntry(st, Top(source)))
  }

  function Then(source: seq<Entry>, step: Step): Step
    decreases |source|, 1
  {
    if step.Stop? then step else PackAll(source, step.state)
  }

  function Conclude(step: Step): Packed {
    if step.Stop? then Refused(step.error) else Finish(step.state)
  }

  function Pack(source: seq<Entry>): Packed {
    Conclude(PackAll(source, PackState([], [])))
  }

  /** The source's loops; they compute Pack. */
  method PackRequest(source: seq<Entry>) returns (request: Packed)
    ensures request == Pack(source)
  {
    var stack: seq<Entry>, result: seq<Entry> := [], [];
    var i := |source|;
    ghost var packed := PackAll(source, PackState([], []));
    assert source[..i] == source;
    while 0 < i
      invariant 0 <= i <= |source|
      invariant PackAll(source[..i], PackState(stack, result)) == packed
    {
      i := i - 1;
      var entry := source[i];
      assert Top(source[..i + 1]) == entry && Pop(source[..i + 1]) == source[..i];
      match entry
      case StringEntry(_, _) =>
        result := [entry] + result;
      case NumericEntry(_, _, _) =>
        result := [entry] + result;
      case OperatorEntry(_) =>
        if |stack| > 0 {
          var oper := stack[|stack| - 1];
          if oper.OperatorEntry? {
            result := [oper] + result;
            stack := stack[..|stack| - 1];
          }
        }
        stack := stack + [entry];
      case OpenParen =>
        if |stack| == 0 {
          return Refused(IncorrectParens);
        }
        ghost var unrolled := Unroll(PackState(stack, result));
        while true
          invariant |stack| > 0
          invariant Unroll(PackState(stack, result)) == unrolled
          decreases |stack|
        {
          var top := stack[|stack| - 1];
          if top.CloseParen? {
            break;
          }
          result := [top] + result;
          stack := stack[..|stack| - 1];
          if |stack| == 0 {
            return Refused(IncorrectParens2);
          }
        }
        stack := stack[..|stack| - 1];
      case CloseParen =>
        stack := stack + [entry];
    }
    assert source[..i] == [];
    if |stack| != 0 {
      if stack[0].IsParen() {
        return Refused(IncorrectParens3);
      }
      result := [stack[0]] + result;
    }
    return Request(result);
  }

  // ----- the grammar of queries and what they mean

  /** E ::= P | P op E and P ::= value | ( E ). */
  datatype Query = One(first: Primary) | More(first: Primary, op: Operator, rest: Query)
  datatype Primary = Value(entry: Entry) | Group(query: Query)

  predicate Legal(q: Query) {
    LegalPrimary(q.first) && (q.More? ==> Legal(q.rest))
  }

  predicate LegalPrimary(p: Primary) {
    match p
    case Value(e) => e.IsValue()
    case Group(q) => Legal(q)
  }

  function Tokens(q: Query): (ts: seq<Entry>)
    ensures ts != []
  {
    match q
    case One(p) => TokensOf(p)
    case More(p, op, rest) => TokensOf(p) + [OperatorEntry(op)] + Tokens(rest)
  }

  function TokensOf(p: Primary): (ts: seq<Entry>)
    ensures ts != []
  {
    match p
    case Value(e) => [e]
    case Group(q) => [OpenParen] + Tokens(q) + [CloseParen]
  }

  /** All operators bind alike and to the right. */
  datatype Tree = Leaf(entry: Entry) | Node(op: Operator, left: Tree, right: Tree)

  function TreeOf(q: Query): Tree {
    match q
    case One(p) => TreeOfPrimary(p)
    case More(p, op, rest) => Node(op, TreeOfPrimary(p), TreeOf(rest))
  }

  function TreeOfPrimary(p: Primary): Tree {
    match p
    case Value(e) => Leaf(e)
    case Group(q) => TreeOf(q)
  }

  function Prefix(t: Tree): (es: seq<Entry>)
    ensures es != []
  {
    match t
    case Leaf(e) => [e]
    case Node(op, l, r) => [OperatorEntry(op)] + Prefix(l) + Prefix(r)
  }

  /** What stays on the stack after a query: its first operator. */
  function Pending(q: Query): seq<Entry> {
    if q.One? then [] else [OperatorEntry(q.op)]
  }

  function Emitted(q: Query): seq<Entry> {
    Prefix(TreeOf(q))[|Pending(q)|..]
  }

  lemma PendingThenEmitted(q: Query)
    ensures Prefix(TreeOf(q)) == Pending(q) + Emitted(q)
  {
  }

  predicate NoOperatorOnTop(stack: seq<Entry>) {
    stack == [] || !Top(stack).OperatorEntry?
  }

  lemma {:induction false} PackAppend(before: seq<Entry>, after: seq<Entry>, st: PackState)
    ensures PackAll(before + after, st) == Then(before, PackAll(after, st))
    decreases |after|
  {
    if after == [] {
      assert before + after == before;
    } else {
      var step := PackEntry(st, Top(after));
      assert Top(before + after) == Top(after) && Pop(before + after) == before + Pop(after);
      if step.Continue? {
        PackAppend(before, Pop(after), step.state);
      }
    }
  }

  lemma PackOne(e: Entry, st: PackState)
    ensures PackAll([e], st) == PackEntry(st, e)
  {
    assert Pop([e]) == [] && Top([e]) == e;
    assert PackAll([e], st) == Then([], PackEntry(st, e));
  }

  /** An operator sends the operator before it to the request and takes its place. */
  lemma OperatorStep(stack: seq<Entry>, q: Query, result: seq<Entry>, op: Operator)
    requires NoOperatorOnTop(stack)
    ensures PackEntry(PackState(stack + Pending(q), result), OperatorEntry(op))
            == Continue(PackState(stack + [OperatorEntry(op)], Pending(q) + result))
  {
    if q.More? {
      assert Pop(stack + Pending(q)) == stack;
    } else {
      assert stack + Pending(q) == stack && Pending(q) + result == result;
    }
  }

  /** An open paren takes the operator above its close paren with it. */
  lemma OpenStep(stack: seq<Entry>, q: Query, result: seq<Entry>)
    ensures PackEntry(PackState(stack + [CloseParen] + Pending(q), result), OpenParen)
            == Continue(PackState(stack, Pending(q) + result))
  {
    var closed := stack + [CloseParen];
    assert Pop(closed) == stack && Top(closed) == CloseParen;
    assert Unroll(PackState(closed, Pending(q) + result)) == Continue(PackState(stack, Pending(q) + result));
    if q.More? {
      assert Pop(closed + Pending(q)) == closed;
    } else {
      assert closed + Pending(q) == closed && Pending(q) + result == result;
    }
  }

  function AfterQuery(q: Query, stack: seq<Entry>, result: seq<Entry>): PackState {
    PackState(stack + Pending(q), Emitted(q) + result)
  }

  lemma AllEmitted(q: Query, result: seq<Entry>)
    ensures Pending(q) + (Emitted(q) + result) == Prefix(TreeOf(q)) + result
  {
    PendingThenEmitted(q);
  }

  /** Packing a query moves its whole prefix form to the request, all but its first operator. */
  lemma {:induction false} PackQuery(q: Query, stack: seq<Entry>, result: seq<Entry>)
    requires Legal(q) && NoOperatorOnTop(stack)
    ensures PackAll(Tokens(q), PackState(stack, result)) == Continue(AfterQuery(q, stack, result))
    decreases q, 1
  {
    var st := PackState(stack, result);
    match q
    case One(p) =>
      PackPrimary(p, stack, result);
      assert stack + [] == stack;
    case More(p, op, rest) =>
      hide PackEntry, PackAll, Emitted, Prefix;
      var o := OperatorEntry(op);
      var all := Prefix(TreeOf(rest)) + result;
      PackAppend(TokensOf(p) + [o], Tokens(rest), st);
      PackQuery(rest, stack, result);
      var st1 := AfterQuery(rest, stack, result);
      PackAppend(TokensOf(p), [o], st1);
      PackOne(o, st1);
      OperatorStep(stack, rest, st1.result, op);
      AllEmitted(rest, result);
      PackPrimary(p, stack + [o], all);
      EmittedOfMore(q, result);
  }

  lemma EmittedOfMore(q: Query, result: seq<Entry>)
    requires q.More?
    ensures Emitted(q) + result == Prefix(TreeOfPrimary(q.first)) + (Prefix(TreeOf(q.rest)) + result)
  {
  }

  lemma {:induction false} PackPrimary(p: Primary, stack: seq<Entry>, result: seq<Entry>)
    requires LegalPrimary(p)
    ensures PackAll(TokensOf(p), PackState(stack, result))
            == Continue(PackState(stack, Prefix(TreeOfPrimary(p)) + result))
    decreases p, 0
  {
    var st := PackState(stack, result);
    match p
    case Value(e) =>
      PackOne(e, st);
    case Group(q) =>
      var closed := stack + [CloseParen];
      PackAppend([OpenParen] + Tokens(q), [CloseParen], st);
      PackOne(CloseParen, st);
      PackAppend([OpenParen], Tokens(q), PackState(closed, result));
      PackQuery(q, closed, result);
      PackOne(OpenParen, AfterQuery(q, closed, result));
      OpenStep(stack, q, Emitted(q) + result);
      AllEmitted(q, result);
  }

  /** Compiling keeps the meaning: a query of the grammar is packed into exactly
      the prefix form of its right-associated tree. */
  lemma PackCompiles(q: Query)
    requires Legal(q)
    ensures Pack(Tokens(q)) == Request(Prefix(TreeOf(q)))
  {
    PackQuery(q, [], []);
    PendingThenEmitted(q);
    assert [] + Pending(q) == Pending(q) && Emitted(q) + [] == Emitted(q);
  }

  // ----- the prefix form determines the tree

  datatype Parsed = Parsed(tree: Tree, rest: seq<Entry>) | Incomplete

  /** How a server reads a request. */
  function ReadPrefix(es: seq<Entry>): (r: Parsed)
    ensures r.Parsed? ==> |r.rest| < |es|
    decreases |es|
  {
    if es == [] then Incomplete
    else if es[0].OperatorEntry? then
      var l := ReadPrefix(es[1..]);
      if l.Incomplete? then Incomplete
      else
        var r := ReadPrefix(l.rest);
        if r.Incomplete? then Incomplete else Parsed(Node(es[0].op, l.tree, r.tree), r.rest)
    else Parsed(Leaf(es[0]), es[1..])
  }

  predicate LegalTree(t: Tree) {
    match t
    case Leaf(e) => e.IsValue()
    case Node(_, l, r) => LegalTree(l) && LegalTree(r)
  }

  /** Every left operand in parens. */
  function QueryFor(t: Tree): Query {
    match t
    case Leaf(e) => One(Value(e))
    case Node(op, l, r) => More(Group(QueryFor(l)), op, QueryFor(r))
  }

  lemma {:induction false} ReadBack(t: Tree, rest: seq<Entry>)
    requires LegalTree(t)
    ensures ReadPrefix(Prefix(t) + rest) == Parsed(t, rest)
    decreases t
  {
    match t
    case Leaf(e) =>
    case Node(op, l, r) =>
      var es := Prefix(t) + rest;
      assert es[1..] == Prefix(l) + (Prefix(r) + rest);
      ReadBack(l, Prefix(r) + rest);
      ReadBack(r, rest);
  }

  lemma {:induction false} QueryTreeIsLegal(q: Query)
    requires Legal(q)
    ensures LegalTree(TreeOf(q))
    decreases q, 1
  {
    PrimaryTreeIsLegal(q.first);
    if q.More? {
      QueryTreeIsLegal(q.rest);
    }
  }

  lemma {:induction false} PrimaryTreeIsLegal(p: Primary)
    requires LegalPrimary(p)
    ensures LegalTree(TreeOfPrimary(p))
    decreases p, 0
  {
    if p.Group? {
      QueryTreeIsLegal(p.query);
    }
  }

  lemma {:induction false} QueryForTree(t: Tree)
    requires LegalTree(t)
    ensures Legal(QueryFor(t)) && TreeOf(QueryFor(t)) == t
  {
    if t.Node? {
      QueryForTree(t.left);
      QueryForTree(t.right);
    }
  }

  /** The expressions that some query means are those whose leaves are values. */
  lemma EveryTreeHasAQuery(t: Tree)
    ensures (exists q :: Legal(q) && TreeOf(q) == t) <==> LegalTree(t)
  {
    if q :| Legal(q) && TreeOf(q) == t {
      QueryTreeIsLegal(q);
    }
    if LegalTree(t) {
      QueryForTree(t);
    }
  }

  /** The reader of a packed query recovers its tree and nothing is left over. */
  lemma PackedQueryReadsBack(q: Query)
    requires Legal(q)
    ensures Pack(Tokens(q)).Request? && ReadPrefix(Pack(Tokens(q)).entries) == Parsed(TreeOf(q), [])
  {
    PackCompiles(q);
    QueryTreeIsLegal(q);
    ReadBack(TreeOf(q), []);
    assert Prefix(TreeOf(q)) + [] == Prefix(TreeOf(q));
  }

  // ----- lists outside the grammar

  /** Read from the right with k close parens waiting, every paren finds its partner. */
  predicate Balanced(source: seq<Entry>, k: nat)
    decreases |source|
  {
    if source == [] then k == 0
    else
      match Top(source)
      case CloseParen => Balanced(Pop(source), k + 1)
      case OpenParen => 0 < k && Balanced(Pop(source), k - 1)
      case _ => Balanced(Pop(source), k)
  }

  function CloseParens(stack: seq<Entry>): nat {
    if stack == [] then 0 else CloseParens(Pop(stack)) + if Top(stack).CloseParen? then 1 else 0
  }

  function NonParens(es: seq<Entry>): multiset<Entry> {
    if es == [] then multiset{}
    else NonParens(Pop(es)) + if Top(es).IsParen() then multiset{} else multiset{Top(es)}
  }

  /** The stack holds close parens and operators, and never two operators in a row. */
  predicate StackOk(stack: seq<Entry>) {
    && (forall i :: 0 <= i < |stack| ==> stack[i].CloseParen? || stack[i].OperatorEntry?)
    && (forall i :: 0 <= i < |stack| - 1 ==> stack[i].CloseParen? || stack[i + 1].CloseParen?)
  }

  lemma PushNonParens(s: seq<Entry>, e: Entry)
    ensures NonParens(s + [e]) == NonParens(s) + if e.IsParen() then multiset{} else multiset{e}
    ensures CloseParens(s + [e]) == CloseParens(s) + if e.CloseParen? then 1 else 0
  {
    assert Pop(s + [e]) == s && Top(s + [e]) == e;
  }

  predicate OperatorBelow(stack: seq<Entry>) {
    stack != [] && stack[0].OperatorEntry?
  }

  function Held(st: PackState): multiset<Entry> {
    NonParens(st.stack) + multiset(st.result)
  }

  /** Moving the top of the stack to the front of the request loses nothing. */
  lemma MoveTop(stack: seq<Entry>, result: seq<Entry>)
    requires stack != [] && Top(stack).OperatorEntry?
    ensures Held(PackState(Pop(stack), [Top(stack)] + result)) == Held(PackState(stack, result))
  {
    assert multiset([Top(stack)] + result) == multiset{Top(stack)} + multiset(result);
  }

  /** Unrolling finds a waiting close paren and loses no entry. */
  lemma UnrollKeeps(st: PackState)
    requires StackOk(st.stack) && 0 < CloseParens(st.stack)
    ensures var u := Unroll(st);
            && u.Continue? && StackOk(u.state.stack) && CloseParens(u.state.stack) == CloseParens(st.stack) - 1
            && OperatorBelow(u.state.stack) == OperatorBelow(st.stack)
            && Held(u.state) == Held(st)
  {
    var rest := Pop(st.stack);
    if Top(st.stack).CloseParen? {
      KeepsBottom(st.stack);
    } else {
      assert rest != [];
      assert Top(rest).CloseParen?;
      MoveTop(st.stack, st.result);
      assert Unroll(st) == Continue(PackState(Pop(rest), [Top(st.stack)] + st.result));
      KeepsBottom(rest);
    }
  }

  lemma KeepsBottom(stack: seq<Entry>)
    requires stack != [] && Top(stack).CloseParen?
    ensures OperatorBelow(Pop(stack)) == OperatorBelow(stack)
  {
    if Pop(stack) == [] {
      assert stack[0].CloseParen?;
    }
  }

  /** Of the stack, what decides about a refusal: the close parens on it, and its bottom. */
  ghost predicate Kept(st: PackState, u: PackState, closed: int, operatorBelow: bool, added: multiset<Entry>) {
    && StackOk(u.stack)
    && CloseParens(u.stack) == CloseParens(st.stack) + closed
    && OperatorBelow(u.stack) == operatorBelow
    && Held(u) == Held(st) + added
  }

  function ParenChange(e: Entry): int {
    if e.CloseParen? then 1 else if e.OpenParen? then -1 else 0
  }

  function Weight(e: Entry): multiset<Entry> {
    if e.IsParen() then multiset{} else multiset{e}
  }

  predicate BelowAfter(st: PackState, e: Entry) {
    OperatorBelow(st.stack) || (e.OperatorEntry? && CloseParens(st.stack) == 0)
  }

  lemma EntryKeeps(st: PackState, e: Entry)
    requires StackOk(st.stack) && (e.OpenParen? ==> 0 < CloseParens(st.stack))
    ensures PackEntry(st, e).Continue?
    ensures Kept(st, PackEntry(st, e).state, ParenChange(e), BelowAfter(st, e), Weight(e))
  {
    match e
    case StringEntry(_, _) =>
      ResultKeeps(st, e);
    case NumericEntry(_, _, _) =>
      ResultKeeps(st, e);
    case OperatorEntry(_) =>
      OperatorKeeps(st, e);
    case OpenParen =>
      UnrollKeeps(st);
    case CloseParen =>
      PushKeeps(st, e);
  }

  lemma ResultKeeps(st: PackState, e: Entry)
    requires e.IsValue()
    ensures Held(st.(result := [e] + st.result)) == Held(st) + multiset{e}
  {
    assert multiset([e] + st.result) == multiset{e} + multiset(st.result);
  }

  lemma PushKeeps(st: PackState, e: Entry)
    requires StackOk(st.stack) && (e.CloseParen? || (e.OperatorEntry? && NoOperatorOnTop(st.stack)))
    ensures Kept(st, st.(stack := st.stack + [e]), ParenChange(e), BelowAfter(st, e), Weight(e))
  {
    PushNonParens(st.stack, e);
    if CloseParens(st.stack) == 0 {
      NoneWaiting(st.stack);
    } else {
      SomeWaiting(st.stack);
    }
  }

  lemma OperatorKeeps(st: PackState, e: Entry)
    requires StackOk(st.stack) && e.OperatorEntry?
    ensures PackEntry(st, e).Continue?
    ensures Kept(st, PackEntry(st, e).state, 0, BelowAfter(st, e), multiset{e})
  {
    if st.stack != [] && Top(st.stack).OperatorEntry? {
      MoveTop(st.stack, st.result);
      var popped := PackState(Pop(st.stack), [Top(st.stack)] + st.result);
      PopOperator(st.stack);
      PushKeeps(popped, e);
    } else {
      PushKeeps(st, e);
    }
  }

  lemma PopOperator(stack: seq<Entry>)
    requires StackOk(stack) && stack != [] && Top(stack).OperatorEntry?
    ensures StackOk(Pop(stack)) && NoOperatorOnTop(Pop(stack))
    ensures CloseParens(Pop(stack)) == CloseParens(stack)
    ensures (OperatorBelow(Pop(stack)) || CloseParens(stack) == 0) == (OperatorBelow(stack) || CloseParens(stack) == 0)
  {
    if CloseParens(stack) != 0 {
      SomeWaiting(Pop(stack));
    }
  }

  lemma OnlyOperatorLeft(stack: seq<Entry>)
    requires StackOk(stack) && CloseParens(stack) == 0 && stack != []
    ensures |stack| == 1 && stack[0].OperatorEntry?
  {
    var inner := Pop(stack);
    assert Top(stack).OperatorEntry?;
    assert inner != [] ==> Top(inner).CloseParen?;
  }

  lemma NoneWaiting(stack: seq<Entry>)
    requires StackOk(stack) && CloseParens(stack) == 0
    ensures |stack| <= 1 && OperatorBelow(stack) == (stack != [])
  {
    if stack != [] {
      OnlyOperatorLeft(stack);
    }
  }

  lemma SomeWaiting(stack: seq<Entry>)
    requires StackOk(stack) && 0 < CloseParens(stack)
    ensures stack != [] && OperatorBelow(stack) == !stack[0].CloseParen?
  {
  }

  lemma FinishKeeps(st: PackState)
    requires StackOk(st.stack) && CloseParens(st.stack) == 0
    ensures Finish(st).Request? && multiset(Finish(st).entries) == Held(st)
  {
    if st.stack != [] {
      OnlyOperatorLeft(st.stack);
      var e := st.stack[0];
      PushNonParens([], e);
      assert st.stack == [] + [e];
      assert multiset([e] + st.result) == multiset{e} + multiset(st.result);
    }
  }

  /** With balanced parens nothing is refused and nothing is lost, wherever the
      operators stand. */
  lemma {:induction false} BalancedPacks(source: seq<Entry>, st: PackState)
    requires StackOk(st.stack) && Balanced(source, CloseParens(st.stack))
    ensures Conclude(PackAll(source, st)).Request?
    ensures multiset(Conclude(PackAll(source, st)).entries) == NonParens(source) + Held(st)
    decreases |source|
  {
    hide PackEntry, StackOk, Held, Finish, CloseParens, OperatorBelow, BelowAfter;
    if source == [] {
      FinishKeeps(st);
    } else {
      var e := Top(source);
      EntryKeeps(st, e);
      var next := PackEntry(st, e).state;
      BalancedPacks(Pop(source), next);
      assert NonParens(source) == NonParens(Pop(source)) + Weight(e);
    }
  }

  lemma BalancedPacksAll(source: seq<Entry>)
    requires Balanced(source, 0)
    ensures Pack(source).Request? && multiset(Pack(source).entries) == NonParens(source)
  {
    BalancedPacks(source, PackState([], []));
  }

  /** Counts from the right: k close parens wait for their partner, and
      operatorBelow says that an operator arrived when none waited. */
  predicate Refuses(source: seq<Entry>, k: nat, operatorBelow: bool)
    decreases |source|
  {
    if source == [] then 0 < k && !operatorBelow
    else
      match Top(source)
      case CloseParen => Refuses(Pop(source), k + 1, operatorBelow)
      case OpenParen => k == 0 || Refuses(Pop(source), k - 1, operatorBelow)
      case OperatorEntry(_) => Refuses(Pop(source), k, operatorBelow || k == 0)
      case _ => Refuses(Pop(source), k, operatorBelow)
  }

  lemma RefusedAtEnd(st: PackState)
    requires StackOk(st.stack)
    ensures Conclude(PackAll([], st)).Refused? <==> 0 < CloseParens(st.stack) && !OperatorBelow(st.stack)
  {
    if CloseParens(st.stack) == 0 {
      NoneWaiting(st.stack);
    } else {
      SomeWaiting(st.stack);
    }
  }

  lemma NonePartner(st: PackState, e: Entry)
    requires StackOk(st.stack) && CloseParens(st.stack) == 0 && e.OpenParen?
    ensures PackEntry(st, e).Stop?
  {
    NoneWaiting(st.stack);
  }

  /** Exactly when a list is refused: an open paren finds no close paren waiting,
      or a close paren is left waiting with no operator below it. */
  lemma {:induction false} RefusedIff(source: seq<Entry>, st: PackState)
    requires StackOk(st.stack)
    ensures Conclude(PackAll(source, st)).Refused?
            <==> Refuses(source, CloseParens(st.stack), OperatorBelow(st.stack))
    decreases |source|
  {
    hide PackEntry, StackOk, Held, Finish, OperatorBelow, CloseParens;
    if source == [] {
      RefusedAtEnd(st);
    } else {
      var e := Top(source);
      if e.OpenParen? && CloseParens(st.stack) == 0 {
        NonePartner(st, e);
      } else {
        EntryKeeps(st, e);
        RefusedIff(Pop(source), PackEntry(st, e).state);
      }
    }
  }

  lemma PackRefusesIff(source: seq<Entry>)
    ensures Pack(source).Refused? <==> Refuses(source, 0, false)
  {
    RefusedIff(source, PackState([], []));
  }

  /** A close paren without its partner can go unnoticed: an operator below it
      on the stack hides it. */
  lemma UnopenedCanPass(a: Entry, b: Entry, c: Entry)
    requires a.IsValue() && b.IsValue() && c.IsValue()
    ensures var source := [a, CloseParen, b, OperatorEntry(AND), c];
            !Balanced(source, 0) && Pack(source).Request?
  {
    var source := [a, CloseParen, b, OperatorEntry(AND), c];
    var s4, s3, s2, s1 := source[..4], source[..3], source[..2], source[..1];
    assert Pop(source) == s4 && Pop(s4) == s3 && Pop(s3) == s2 && Pop(s2) == s1 && Pop(s1) == [];
    assert Balanced(s1, 1) == Balanced([], 1);
    assert Balanced(source, 0) == Balanced(s4, 0) == Balanced(s3, 0) == Balanced(s2, 0);
    assert Refuses(s1, 1, true) == Refuses([], 1, true);
    assert Refuses(source, 0, false) == Refuses(s4, 0, false) == Refuses(s3, 0, true) == Refuses(s2, 0, true);
    PackRefusesIff(source);
  }
}
