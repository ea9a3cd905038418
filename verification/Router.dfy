/** Bounded tree traversal. The chooser is arbitrary; the tree alone decides what a choice may do. */
module Router {
  import opened Wrappers

  /** `id` and `next` are absent when the key is missing or holds no text. */
  datatype Choice = Choice(id: Option<string>, next: Option<string>, tool: Option<string>)
  datatype Node = Node(hop: Option<int>, options: seq<Choice>)
  datatype Tree = Tree(nodes: map<string, Node>, root: string)

  datatype Hop = Hop(number: nat, node: string, selected: string)
  datatype Route = Route(leaf: Choice, hops: seq<Hop>)

  datatype RouteError = CycleOrMissing | WrongHop | BadOptionCount | NotAnOption | LeafTooSoon | NoNextNode | TooLong

  /** Any answer to any question. No node is asked about twice, so a function loses nothing. */
  type Chooser = (string, seq<Choice>) -> string

  const LEAF := "LEAF_RESOLVED"

  // ----- what a route is -----

  /** Option i answers to the selected id and no other option does. */
  predicate OnlyMatch(options: seq<Choice>, selected: string, i: int) {
    0 <= i < |options| && options[i].id == Some(selected)
    && forall j :: 0 <= j < |options| && j != i ==> options[j].id != Some(selected)
  }

  /** The node is on its level and the chooser's answer names exactly one of its one to four
      options, which is `choice`. */
  ghost predicate Chosen(tree: Tree, choose: Chooser, hop: Hop, choice: Choice) {
    && hop.node in tree.nodes
    && var node := tree.nodes[hop.node];
    && node.hop == Some(hop.number)
    && 1 <= |node.options| <= 4
    && hop.selected == choose(hop.node, node.options)
    && exists i :: OnlyMatch(node.options, hop.selected, i) && node.options[i] == choice
  }

  /** Hops from the given node on, numbered from `number`, each leading to the next and the last
      to the leaf. */
  ghost predicate TracesFrom(tree: Tree, choose: Chooser, node: string, number: nat, hops: seq<Hop>, leaf: Choice)
    decreases |hops|
  {
    && |hops| > 0 && hops[0].node == node && hops[0].number == number
    && if |hops| == 1 then Chosen(tree, choose, hops[0], leaf) && leaf.next == Some(LEAF)
       else exists choice ::
              && Chosen(tree, choose, hops[0], choice)
              && choice.next.Some? && choice.next.value != LEAF
              && TracesFrom(tree, choose, choice.next.value, number + 1, hops[1..], leaf)
  }

  /** A linked path of two or three hops from the root to a leaf. */
  ghost predicate Traces(tree: Tree, choose: Chooser, route: Route) {
    2 <= |route.hops| <= 3 && TracesFrom(tree, choose, tree.root, 1, route.hops, route.leaf)
  }

  // ----- the traversal -----

  function Matches(options: seq<Choice>, selected: string): seq<Choice> {
    if |options| == 0 then []
    else (if options[0].id == Some(selected) then [options[0]] else []) + Matches(options[1..], selected)
  }

  lemma {:induction false} NoMatches(options: seq<Choice>, selected: string)
    ensures Matches(options, selected) == [] <==> forall i :: 0 <= i < |options| ==> options[i].id != Some(selected)
  {
    if |options| > 0 {
      NoMatches(options[1..], selected);
      assert forall i :: 0 < i < |options| ==> options[i] == options[1..][i - 1];
    }
  }

  /** Exactly one option is listed exactly when one option answers alone; it is that option. */
  lemma {:induction false} SingleMatch(options: seq<Choice>, selected: string)
    ensures |Matches(options, selected)| == 1 <==> exists i :: OnlyMatch(options, selected, i)
    ensures forall i :: OnlyMatch(options, selected, i) ==> Matches(options, selected) == [options[i]]
  {
    if |options| > 0 {
      var tail := options[1..];
      NoMatches(tail, selected);
      SingleMatch(tail, selected);
      assert forall i :: 0 < i < |options| ==> options[i] == tail[i - 1];
      if options[0].id == Some(selected) {
        assert Matches(tail, selected) == [] ==> OnlyMatch(options, selected, 0);
      } else {
        forall i | OnlyMatch(options, selected, i) ensures OnlyMatch(tail, selected, i - 1) {}
        forall i | OnlyMatch(tail, selected, i) ensures OnlyMatch(options, selected, i + 1) {}
      }
    }
  }

  /** The walk without the set of visited nodes. */
  function Walk(tree: Tree, choose: Chooser, node: string, number: nat, hops: seq<Hop>): Result<Route, RouteError>
    decreases 4 - number
  {
    if number > 3 then Failure(TooLong)
    else if node !in tree.nodes then Failure(CycleOrMissing)
    else if tree.nodes[node].hop != Some(number) then Failure(WrongHop)
    else if !(1 <= |tree.nodes[node].options| <= 4) then Failure(BadOptionCount)
    else
      var selected := choose(node, tree.nodes[node].options);
      var matches := Matches(tree.nodes[node].options, selected);
      if |matches| != 1 then Failure(NotAnOption)
      else
        var hops' := hops + [Hop(number, node, selected)];
        if matches[0].next == Some(LEAF) then if number < 2 then Failure(LeafTooSoon) else Success(Route(matches[0], hops'))
        else if matches[0].next.None? then Failure(NoNextNode)
        else Walk(tree, choose, matches[0].next.value, number + 1, hops')
  }

  /** The traversal with its set of visited nodes ends as the walk without it: a node met again
      would fail its hop number anyway. The set only changes which error that failure names. */
  method Traverse(tree: Tree, choose: Chooser) returns (r: Result<Route, RouteError>)
    ensures var walk := Walk(tree, choose, tree.root, 1, []);
            r == walk || (r == Failure(CycleOrMissing) && walk == Failure(WrongHop))
    ensures r.Success? <==> exists route :: Traces(tree, choose, route)
    ensures r.Success? ==> Traces(tree, choose, r.value)
  {
    forall route ensures Walk(tree, choose, tree.root, 1, []) == Success(route) <==> Traces(tree, choose, route) {
      WalkIsTrace(tree, choose, route);
    }
    var node, hops, seen := tree.root, [], {};
    for number := 1 to 4
      invariant forall id :: id in seen ==> id in tree.nodes && tree.nodes[id].hop.Some? && tree.nodes[id].hop.value < number
      invariant Walk(tree, choose, tree.root, 1, []) == Walk(tree, choose, node, number, hops)
    {
      if node in seen || node !in tree.nodes {
        return Failure(CycleOrMissing);
      }
      seen := seen + {node};
      if tree.nodes[node].hop != Some(number) {
        return Failure(WrongHop);
      }
      var options := tree.nodes[node].options;
      if !(1 <= |options| <= 4) {
        return Failure(BadOptionCount);
      }
      var selected := choose(node, options);
      var matches := Matches(options, selected);
      if |matches| != 1 {
        return Failure(NotAnOption);
      }
      var option := matches[0];
      hops := hops + [Hop(number, node, selected)];
      if option.next == Some(LEAF) {
        if number < 2 {
          return Failure(LeafTooSoon);
        }
        return Success(Route(option, hops));
      }
      if option.next.None? {
        return Failure(NoNextNode);
      }
      node := option.next.value;
    }
    return Failure(TooLong);
  }

  /** A walk adds at least one hop to those it was given. */
  lemma {:induction false} WalkExtends(tree: Tree, choose: Chooser, node: string, number: nat, hops: seq<Hop>)
    ensures var walk := Walk(tree, choose, node, number, hops);
            walk.Success? ==> |hops| < |walk.value.hops| && hops + [walk.value.hops[|hops|]] <= walk.value.hops
                              && walk.value.hops[|hops|].node == node
    decreases 4 - number
  {
    if number <= 3 && node in tree.nodes {
      var selected := choose(node, tree.nodes[node].options);
      var matches := Matches(tree.nodes[node].options, selected);
      if |matches| == 1 && matches[0].next.Some? {
        WalkExtends(tree, choose, matches[0].next.value, number + 1, hops + [Hop(number, node, selected)]);
      }
    }
  }

  /** What the walk checks at a node is that its choice is the chosen one. */
  lemma CheckedIsChosen(tree: Tree, choose: Chooser, hop: Hop, choice: Choice)
    ensures Chosen(tree, choose, hop, choice) <==>
              && hop.node in tree.nodes && tree.nodes[hop.node].hop == Some(hop.number) && 1 <= |tree.nodes[hop.node].options| <= 4
              && hop.selected == choose(hop.node, tree.nodes[hop.node].options)
              && Matches(tree.nodes[hop.node].options, hop.selected) == [choice]
  {
    if hop.node in tree.nodes {
      var options := tree.nodes[hop.node].options;
      SingleMatch(options, hop.selected);
      if Matches(options, hop.selected) == [choice] {
        var i :| OnlyMatch(options, hop.selected, i);
        assert Matches(options, hop.selected)[0] == options[i];
      }
    }
  }

  /** From any node and number, the walk ends in a route exactly when the hops it adds are a trace
      that ends on hop two or three. */
  lemma {:induction false} WalkIsTraceFrom(tree: Tree, choose: Chooser, node: string, number: nat, done: seq<Hop>, hops: seq<Hop>, leaf: Choice)
    requires 1 <= number <= 4
    ensures Walk(tree, choose, node, number, done) == Success(Route(leaf, done + hops))
       <==> TracesFrom(tree, choose, node, number, hops, leaf) && 2 <= number + |hops| - 1 <= 3
    decreases 4 - number
  {
    WalkExtends(tree, choose, node, number, done);
    forall choice ensures |hops| > 0 ==> (Chosen(tree, choose, hops[0], choice) <==>
                            && hops[0].node in tree.nodes && tree.nodes[hops[0].node].hop == Some(hops[0].number)
                            && 1 <= |tree.nodes[hops[0].node].options| <= 4
                            && hops[0].selected == choose(hops[0].node, tree.nodes[hops[0].node].options)
                            && Matches(tree.nodes[hops[0].node].options, hops[0].selected) == [choice])
    {
      if |hops| > 0 { CheckedIsChosen(tree, choose, hops[0], choice); }
    }
    if number <= 3 && node in tree.nodes && |hops| > 0 {
      var selected := choose(node, tree.nodes[node].options);
      var hop := Hop(number, node, selected);
      var matches := Matches(tree.nodes[node].options, selected);
      if |matches| == 1 && hops[0] == hop {
        assert matches == [matches[0]];
        assert Chosen(tree, choose, hop, matches[0]) <==> tree.nodes[node].hop == Some(number) && 1 <= |tree.nodes[node].options| <= 4;
        assert forall choice :: Chosen(tree, choose, hop, choice) ==> choice == matches[0];
        assert done + hops == done + [hop] + hops[1..];
        if matches[0].next == Some(LEAF) {
          assert |hops| == 1 ==> hops == [hop];
          assert done + hops == done + [hop] ==> |hops| == 1;
          assert !(|hops| > 1 && TracesFrom(tree, choose, node, number, hops, leaf));
        } else if matches[0].next.Some? {
          var next := matches[0].next.value;
          WalkExtends(tree, choose, next, number + 1, done + [hop]);
          WalkIsTraceFrom(tree, choose, next, number + 1, done + [hop], hops[1..], leaf);
        }
      }
    }
  }

  /** The walk succeeds with exactly the linked paths of two or three hops from root to leaf. */
  lemma WalkIsTrace(tree: Tree, choose: Chooser, route: Route)
    ensures Walk(tree, choose, tree.root, 1, []) == Success(route) <==> Traces(tree, choose, route)
  {
    assert [] + route.hops == route.hops;
    WalkIsTraceFrom(tree, choose, tree.root, 1, [], route.hops, route.leaf);
  }

  // ----- routes hop by hop -----

  /** At this hop the node is on level `number` with one to four options, and the chooser's answer is the
      id of this option and of no other. */
  ghost predicate Picks(tree: Tree, choose: Chooser, hop: Hop, number: nat, choice: Choice) {
    && hop.number == number && hop.node in tree.nodes && tree.nodes[hop.node].hop == Some(number)
    && var options := tree.nodes[hop.node].options;
       && |options| > 0 && |options| < 5
       && hop.selected == choose(hop.node, options)
       && exists i :: 0 <= i < |options| && options[i] == choice && choice.id == Some(hop.selected)
                      && forall j :: 0 <= j < |options| && j != i ==> options[j].id != Some(hop.selected)
  }

  lemma ChosenIsPicked(tree: Tree, choose: Chooser, hop: Hop, choice: Choice)
    ensures Chosen(tree, choose, hop, choice) <==> Picks(tree, choose, hop, hop.number, choice)
  {
    if Picks(tree, choose, hop, hop.number, choice) {
      var options := tree.nodes[hop.node].options;
      var i :| 0 <= i < |options| && options[i] == choice && choice.id == Some(hop.selected)
               && forall j :: 0 <= j < |options| && j != i ==> options[j].id != Some(hop.selected);
      assert OnlyMatch(options, hop.selected, i);
    }
    if Chosen(tree, choose, hop, choice) {
      var options := tree.nodes[hop.node].options;
      var i :| OnlyMatch(options, hop.selected, i) && options[i] == choice;
      assert options[i] == choice && choice.id == Some(hop.selected);
    }
  }

  /** The hop picks an option that leads to the next hop. */
  ghost predicate LeadsTo(tree: Tree, choose: Chooser, hop: Hop, number: nat, next: Hop) {
    next.node != "LEAF_RESOLVED" && exists choice :: Picks(tree, choose, hop, number, choice) && choice.next == Some(next.node)
  }

  ghost predicate Ends(tree: Tree, choose: Chooser, hop: Hop, number: nat, leaf: Choice) {
    Picks(tree, choose, hop, number, leaf) && leaf.next == Some("LEAF_RESOLVED")
  }

  lemma TraceOfOne(tree: Tree, choose: Chooser, node: string, number: nat, hop: Hop, leaf: Choice)
    ensures TracesFrom(tree, choose, node, number, [hop], leaf) <==> hop.node == node && Ends(tree, choose, hop, number, leaf)
  {
    ChosenIsPicked(tree, choose, hop, leaf);
  }

  lemma TraceOfMore(tree: Tree, choose: Chooser, node: string, number: nat, hop: Hop, tail: seq<Hop>, leaf: Choice)
    requires |tail| > 0
    ensures TracesFrom(tree, choose, node, number, [hop] + tail, leaf)
            <==> hop.node == node && LeadsTo(tree, choose, hop, number, tail[0])
                 && TracesFrom(tree, choose, tail[0].node, number + 1, tail, leaf)
  {
    var hops := [hop] + tail;
    assert hops[1..] == tail;
    forall choice ensures Chosen(tree, choose, hop, choice) <==> Picks(tree, choose, hop, hop.number, choice) {
      ChosenIsPicked(tree, choose, hop, choice);
    }
    if TracesFrom(tree, choose, node, number, hops, leaf) {
      var choice :| Chosen(tree, choose, hop, choice) && choice.next.Some? && choice.next.value != LEAF
                    && TracesFrom(tree, choose, choice.next.value, number + 1, hops[1..], leaf);
      assert Picks(tree, choose, hop, number, choice);
    }
    if hop.node == node && LeadsTo(tree, choose, hop, number, tail[0]) && TracesFrom(tree, choose, tail[0].node, number + 1, tail, leaf) {
      var choice :| Picks(tree, choose, hop, number, choice) && choice.next == Some(tail[0].node);
      assert Chosen(tree, choose, hops[0], choice);
    }
  }

  /** The routes are exactly those from the root over two hops, or over three, to the leaf. */
  lemma RouteExactly(tree: Tree, choose: Chooser, route: Route)
    ensures Traces(tree, choose, route)
            <==> var hops := route.hops;
                 && (|hops| == 2 || |hops| == 3) && hops[0].node == tree.root && LeadsTo(tree, choose, hops[0], 1, hops[1])
                 && (if |hops| == 2 then Ends(tree, choose, hops[1], 2, route.leaf)
                     else LeadsTo(tree, choose, hops[1], 2, hops[2]) && Ends(tree, choose, hops[2], 3, route.leaf))
  {
    var hops := route.hops;
    if |hops| == 2 {
      assert hops == [hops[0]] + [hops[1]];
      TraceOfMore(tree, choose, tree.root, 1, hops[0], [hops[1]], route.leaf);
      TraceOfOne(tree, choose, hops[1].node, 2, hops[1], route.leaf);
    } else if |hops| == 3 {
      assert hops == [hops[0]] + ([hops[1]] + [hops[2]]);
      TraceOfMore(tree, choose, tree.root, 1, hops[0], [hops[1]] + [hops[2]], route.leaf);
      TraceOfMore(tree, choose, hops[1].node, 2, hops[1], [hops[2]], route.leaf);
      TraceOfOne(tree, choose, hops[2].node, 3, hops[2], route.leaf);
    }
  }
}
