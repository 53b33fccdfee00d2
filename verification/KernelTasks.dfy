/** The list nodes embedded in task control blocks, and the lists they are chained into. */
module KernelTasks {
  import opened Sequences
  import opened KernelLists
  import opened Scheduler

  /** The two nodes embedded in a task control block: for the ready and blocked lists, and for
      the list of whatever it waits for. */
  datatype TaskNodes = TaskNodes(state: ListItem, event: ListItem)

  function Node(tasks: seq<TaskNodes>, t: nat, event: bool): ListItem
    requires t < |tasks|
  {
    if event then tasks[t].event else tasks[t].state
  }

  /** Nodes of different tasks, and the two nodes of one task, are different objects. */
  ghost predicate Numbered(tasks: seq<TaskNodes>) {
    forall t | 0 <= t < |tasks| :: tasks[t].state.owner == t && tasks[t].event.owner == t && tasks[t].state != tasks[t].event
  }

  /** The nodes `items` are those of the tasks `ids`, in order. */
  ghost predicate Maps(items: seq<ListItem>, tasks: seq<TaskNodes>, ids: seq<nat>, event: bool) {
    |items| == |ids| && forall i | 0 <= i < |ids| :: ids[i] < |tasks| && items[i] == Node(tasks, ids[i], event)
  }

  lemma MapsMember(items: seq<ListItem>, tasks: seq<TaskNodes>, ids: seq<nat>, event: bool, t: nat)
    requires Maps(items, tasks, ids, event) && Numbered(tasks) && t < |tasks|
    ensures Node(tasks, t, event) in items <==> t in ids
    ensures Node(tasks, t, !event) !in items
  {
    if t in ids {
      var i :| 0 <= i < |ids| && ids[i] == t;
      assert items[i] == Node(tasks, t, event);
    }
  }

  lemma MapsAppend(items: seq<ListItem>, tasks: seq<TaskNodes>, ids: seq<nat>, event: bool, t: nat)
    requires Maps(items, tasks, ids, event) && t < |tasks|
    ensures Maps(items + [Node(tasks, t, event)], tasks, ids + [t], event)
  {
  }

  lemma MapsInsert(items: seq<ListItem>, tasks: seq<TaskNodes>, ids: seq<nat>, event: bool, i: nat, t: nat)
    requires Maps(items, tasks, ids, event) && t < |tasks| && i <= |items| && Distinct(items) && Node(tasks, t, event) !in items
    ensures |ids| == |items| && Maps(InsertAt(items, i, Node(tasks, t, event)), tasks, InsertAt(ids, i, t), event)
    ensures var w := InsertAt(items, i, Node(tasks, t, event));
      (forall x | x in w :: x in items || x == Node(tasks, t, event)) && (forall x | x in items :: x in w) && Node(tasks, t, event) in w
  {
    InsertAtMembers(items, i, Node(tasks, t, event));
  }

  /** A link to the node of task `c`, or to none. */
  ghost predicate Points(p: ListItem?, tasks: seq<TaskNodes>, c: Option<nat>, event: bool) {
    match c
    case None => p == null
    case Some(t) => t < |tasks| && p == Node(tasks, t, event)
  }

  /** Where the cursor goes, as nodes and as tasks. */
  lemma {:induction false} MapsCursor(items: seq<ListItem>, tasks: seq<TaskNodes>, ids: seq<nat>, event: bool, t: nat)
    requires Maps(items, tasks, ids, event) && Numbered(tasks) && t < |tasks| && t in ids && Distinct(items)
    ensures Node(tasks, t, event) in items
    ensures var i := IndexOf(items, Node(tasks, t, event));
      Points(if i + 1 < |items| then items[i + 1] else At(Without(items, Node(tasks, t, event)), 0), tasks, CursorAfter(ids, t), event)
  {
    MapsIndexOf(items, tasks, ids, event, t);
  }

  lemma MapsSize(items: seq<ListItem>, tasks: seq<TaskNodes>, ids: seq<nat>, event: bool)
    requires Maps(items, tasks, ids, event)
    ensures |items| == |ids|
  {
  }

  lemma {:induction false} MapsSuccessor(items: seq<ListItem>, tasks: seq<TaskNodes>, ids: seq<nat>, t: nat)
    requires Maps(items, tasks, ids, false) && Numbered(tasks) && t < |tasks| && Distinct(items) && Node(tasks, t, false) in items
    ensures t in ids
    ensures var i := IndexOf(items, Node(tasks, t, false));
      Points(if i + 1 < |items| then items[i + 1] else items[0], tasks, Some(Successor(ids, t)), false)
  {
    MapsMember(items, tasks, ids, false, t);
    MapsIndexOf(items, tasks, ids, false, t);
  }

  lemma {:induction false} MapsIndexOf(items: seq<ListItem>, tasks: seq<TaskNodes>, ids: seq<nat>, event: bool, t: nat)
    requires Maps(items, tasks, ids, event) && Numbered(tasks) && t < |tasks| && t in ids && Distinct(items)
    ensures Node(tasks, t, event) in items && IndexOf(items, Node(tasks, t, event)) == IndexOf(ids, t)
  {
    hide IndexOf, Numbered;
    MapsMember(items, tasks, ids, event, t);
    var i := IndexOf(ids, t);
    assert items[i] == Node(tasks, t, event);
    IndexOfDistinct(items, i);
  }

  lemma WithoutNode(items: seq<ListItem>, item: ListItem)
    requires Distinct(items)
    ensures var w := Without(items, item);
      (forall x | x in w :: x in items) && (forall x | x in items && x != item :: x in w)
  {
    WithoutMembers(items, item);
  }

  lemma MapsRemoveAt(items: seq<ListItem>, tasks: seq<TaskNodes>, ids: seq<nat>, event: bool, i: nat)
    requires Maps(items, tasks, ids, event) && i < |ids|
    ensures |items| == |ids| && Maps(RemoveAt(items, i), tasks, RemoveAt(ids, i), event)
  {
  }

  lemma MapsWithout(items: seq<ListItem>, tasks: seq<TaskNodes>, ids: seq<nat>, event: bool, t: nat)
    requires Maps(items, tasks, ids, event) && Numbered(tasks) && t < |tasks| && t in ids && Distinct(items)
    ensures Node(tasks, t, event) in items && Maps(Without(items, Node(tasks, t, event)), tasks, Without(ids, t), event)
  {
    hide IndexOf, Distinct, Numbered, Maps, RemoveAt;
    MapsIndexOf(items, tasks, ids, event, t);
    MapsRemoveAt(items, tasks, ids, event, IndexOf(ids, t));
  }

  function Empties(n: nat): seq<seq<nat>> { seq(n, _ => []) }

  /** All tasks and all lists of one core. */
  class TaskPool {
    var tasks: seq<TaskNodes>
    /** Ready lists by priority, then the blocked list, then the semaphores' and the mutexes'. */
    const lists: seq<List>

    ghost function Nodes(): set<ListItem>
      reads this
    {
      (set b | b in tasks :: b.state) + (set b | b in tasks :: b.event)
    }

    constructor (lists: seq<List>, idle: TaskNodes)
      requires Distinct(lists) && forall l | l in lists :: l.Chain() && l.items == []
      requires idle.state.owner == idle.event.owner == 0 && idle.state != idle.event
      requires idle.state.container == null && idle.event.container == null
      ensures this.lists == lists && tasks == [idle] && Linked(Empties(|lists|))
    {
      this.lists := lists;
      tasks := [idle];
    }

    /** A node points to no list, or to one that holds it. */
    ghost predicate Placed(item: ListItem)
      reads lists, item
    {
      item.container != null ==> item.container in lists && item in item.container.items
    }

    ghost predicate Holds(j: nat, ids: seq<nat>)
      requires j < |lists|
      reads this, lists[j], Nodes()
    {
      && (forall x | x in lists[j].items :: x in Nodes())
      && lists[j].Chain() && Maps(lists[j].items, tasks, ids, j > NUM_PRIORITIES)
    }

    /** Every list holds the nodes of the tasks `ids` says, and no node points to a list that
        does not hold it. */
    ghost predicate Linked(ids: seq<seq<nat>>)
      reads this, lists, Nodes()
    {
      && |ids| == |lists| && Distinct(lists) && Numbered(tasks)
      && (forall j | 0 <= j < |lists| :: Holds(j, ids[j]))
      && (forall x | x in Nodes() :: Placed(x))
    }

    /** A node is linked exactly when some list of its kind holds its task. */
    lemma WhereNode(t: nat, event: bool, ids: seq<seq<nat>>)
      requires Linked(ids) && t < |tasks|
      ensures (forall j | 0 <= j < |lists| && event == (j > NUM_PRIORITIES) :: t !in ids[j]) ==> Node(tasks, t, event).container == null
      ensures forall j | 0 <= j < |lists| && event == (j > NUM_PRIORITIES) && t in ids[j] :: Node(tasks, t, event).container == lists[j]
    {
      hide At, Distinct;
      var x := Node(tasks, t, event);
      NodeIn(t, event);
      assert Placed(x);
      if x.container != null {
        var j :| 0 <= j < |lists| && lists[j] == x.container;
        assert Holds(j, ids[j]);
        MapsMember(lists[j].items, tasks, ids[j], j > NUM_PRIORITIES, t);
      }
      forall j | 0 <= j < |lists| && event == (j > NUM_PRIORITIES) && t in ids[j] ensures x.container == lists[j] {
        assert Holds(j, ids[j]);
        MapsMember(lists[j].items, tasks, ids[j], event, t);
        lists[j].InList(x);
      }
    }

    lemma WhereReady(t: nat, j: nat, ids: seq<seq<nat>>)
      requires Linked(ids) && t < |tasks| && j < |lists| && j <= NUM_PRIORITIES
      ensures tasks[t].state.container == lists[j] <==> t in ids[j]
    {
      hide At, Distinct;
      NodeIn(t, false);
      assert Holds(j, ids[j]) && Placed(tasks[t].state);
      MapsMember(lists[j].items, tasks, ids[j], false, t);
      if t in ids[j] { lists[j].InList(tasks[t].state); }
    }

    lemma NodeIn(t: nat, event: bool)
      requires t < |tasks|
      ensures Node(tasks, t, event) in Nodes()
    {
      assert tasks[t] in tasks;
    }

    /** Each list's nodes point to it, so no two lists share one. */
    lemma Apart(j: nat, ids: seq<seq<nat>>)
      requires Linked(ids) && j < |lists|
      ensures Holds(j, ids[j])
      ensures forall j' | 0 <= j' < |lists| && j' != j :: lists[j'] != lists[j]
      ensures forall x | x in lists[j].items :: x.container == lists[j]
      ensures forall j', x | 0 <= j' < |lists| && j' != j && x in lists[j'].items :: x !in lists[j].items && x.container == lists[j']
    {
      hide At, Nodes;
      assert Holds(j, ids[j]);
      forall x | x in lists[j].items ensures x.container == lists[j] { lists[j].InList(x); }
      forall j', x | 0 <= j' < |lists| && j' != j && x in lists[j'].items
        ensures x !in lists[j].items && x.container == lists[j'] && lists[j'] != lists[j]
      {
        assert Holds(j', ids[j']);
        lists[j'].InList(x);
      }
    }

    /** Task `t` joins the end of a list, and its cursor starts there if it has one and was empty. */
    method LinkLast(l: List, event: bool, t: nat, cursor: bool, ghost j: nat, ghost ids: seq<seq<nat>>)
      requires Linked(ids) && j < |lists| && lists[j] == l && event == (j > NUM_PRIORITIES) && t < |tasks|
      requires Node(tasks, t, event).container == null
      modifies l, Nodes()
      ensures Linked(ids[j := ids[j] + [t]])
      ensures forall l' | l' in lists && l' != l :: l'.index == old(l'.index)
      ensures l.index == if ids[j] == [] && cursor then Node(tasks, t, event) else old(l.index)
    {
      ghost var nodes := Nodes();
      hide Maps, Distinct, At;
      var item := Node(tasks, t, event);
      NodeIn(t, event);
      Apart(j, ids);
      assert forall x | x in l.items :: x in nodes;
      MapsAppend(l.items, tasks, ids[j], event, t);
      MapsSize(l.items, tasks, ids[j], event);
      ghost var r := ids[j := ids[j] + [t]];
      l.Append(item, cursor);
      assert forall x | x in l.items :: x in nodes;
      assert Holds(j, r[j]);
      forall j' | 0 <= j' < |lists| && j' != j ensures Holds(j', r[j']) {
        assert old(Holds(j', ids[j']));
        assert lists[j'].Chain();
      }
      forall x | x in nodes ensures Placed(x) {
        assert old(Placed(x));
        if x in l.items { l.InList(x); }
      }
    }

    /** Task `t` joins a list at its head. */
    method LinkFirst(l: List, event: bool, t: nat, ghost j: nat, ghost ids: seq<seq<nat>>)
      requires Linked(ids) && j < |lists| && lists[j] == l && event == (j > NUM_PRIORITIES) && t < |tasks|
      requires Node(tasks, t, event).container == null
      modifies l, Nodes()
      ensures Linked(ids[j := InsertAt(ids[j], 0, t)])
      ensures forall l' | l' in lists && l' != l :: l'.index == old(l'.index)
      ensures l.index == old(l.index)
    {
      ghost var nodes := Nodes();
      hide Maps, Distinct, At, InsertAt;
      var item := Node(tasks, t, event);
      NodeIn(t, event);
      Apart(j, ids);
      assert forall x | x in l.items :: x in nodes;
      MapsInsert(l.items, tasks, ids[j], event, 0, t);
      ghost var r := ids[j := InsertAt(ids[j], 0, t)];
      l.Prepend(item);
      assert forall x | x in l.items :: x in nodes;
      assert Holds(j, r[j]);
      forall j' | 0 <= j' < |lists| && j' != j ensures Holds(j', r[j']) {
        assert old(Holds(j', ids[j']));
        assert lists[j'].Chain();
      }
      forall x | x in nodes ensures Placed(x) {
        assert old(Placed(x));
        if x in l.items { l.InList(x); }
      }
    }

    /** Task `t` joins a list behind the node at place `i`. */
    method LinkAfter(l: List, event: bool, t: nat, iter: ListItem, ghost i: int, ghost j: nat, ghost ids: seq<seq<nat>>)
      requires Linked(ids) && j < |lists| && lists[j] == l && event == (j > NUM_PRIORITIES) && t < |tasks|
      requires Node(tasks, t, event).container == null
      requires 0 <= i < |l.items| && i < |ids[j]| && l.items[i] == iter
      modifies l, Nodes()
      ensures Linked(ids[j := InsertAt(ids[j], i + 1, t)])
      ensures forall l' | l' in lists && l' != l :: l'.index == old(l'.index)
      ensures l.index == old(l.index)
    {
      ghost var nodes := Nodes();
      hide Maps, Distinct, At, InsertAt;
      var item := Node(tasks, t, event);
      NodeIn(t, event);
      Apart(j, ids);
      assert forall x | x in l.items :: x in nodes;
      MapsInsert(l.items, tasks, ids[j], event, i + 1, t);
      ghost var r := ids[j := InsertAt(ids[j], i + 1, t)];
      l.InsertAfter(iter, item, i);
      assert forall x | x in l.items :: x in nodes;
      assert Holds(j, r[j]);
      forall j' | 0 <= j' < |lists| && j' != j ensures Holds(j', r[j']) {
        assert old(Holds(j', ids[j']));
        assert lists[j'].Chain();
      }
      forall x | x in nodes ensures Placed(x) {
        assert old(Placed(x));
        if x in l.items { l.InList(x); }
      }
    }

    /** Task `t` leaves a list; a cursor on it moves on. */
    method Unlink(l: List, event: bool, t: nat, ghost j: nat, ghost ids: seq<seq<nat>>)
      requires Linked(ids) && j < |lists| && lists[j] == l && event == (j > NUM_PRIORITIES) && t < |tasks|
      requires t in ids[j]
      modifies l, Nodes()
      ensures Linked(ids[j := Without(ids[j], t)])
      ensures forall l' | l' in lists && l' != l :: l'.index == old(l'.index)
      ensures old(l.index) != Node(tasks, t, event) ==> l.index == old(l.index)
      ensures old(l.index) == Node(tasks, t, event) ==> Points(l.index, tasks, CursorAfter(ids[j], t), event)
      ensures Node(tasks, t, event).container == null
    {
      ghost var nodes := Nodes();
      hide Maps, Distinct, At, Without, IndexOf, CursorAfter;
      var item := Node(tasks, t, event);
      NodeIn(t, event);
      Apart(j, ids);
      assert forall x | x in l.items :: x in nodes;
      WithoutNode(l.items, item);
      MapsWithout(l.items, tasks, ids[j], event, t);
      MapsCursor(l.items, tasks, ids[j], event, t);
      ghost var r := ids[j := Without(ids[j], t)];
      l.Unlink(item);
      assert forall x | x in l.items :: x in nodes;
      assert Holds(j, r[j]);
      forall j' | 0 <= j' < |lists| && j' != j ensures Holds(j', r[j']) {
        assert old(Holds(j', ids[j']));
        assert lists[j'].Chain();
      }
      forall x | x in nodes ensures Placed(x) {
        assert old(Placed(x));
        if x in l.items { l.InList(x); }
      }
    }
  
    /** The cursor of a list goes on to the next task. */
    method Advance(l: List, ghost j: nat, ghost ids: seq<seq<nat>>, ghost t: nat)
      requires Linked(ids) && j < |lists| && lists[j] == l && j <= NUM_PRIORITIES && Points(l.index, tasks, Some(t), false)
      modifies l`index
      ensures Linked(ids) && t in ids[j] && Points(l.index, tasks, Some(Successor(ids[j], t)), false)
    {
      hide Maps, At, Successor;
      Apart(j, ids);
      MapsSuccessor(l.items, tasks, ids[j], t);
      l.Advance();
      forall j' | 0 <= j' < |lists| ensures Holds(j', ids[j']) {
        assert old(Holds(j', ids[j']));
        assert lists[j'].Chain();
      }
    }
  
    /** Two more nodes, on no list. */
    method AddTask(ghost ids: seq<seq<nat>>)
      requires Linked(ids)
      modifies this`tasks
      ensures Linked(ids) && |tasks| == |old(tasks)| + 1 && tasks[..|old(tasks)|] == old(tasks)
      ensures fresh(Nodes() - old(Nodes()))
      ensures tasks[|old(tasks)|].state.container == null && tasks[|old(tasks)|].event.container == null
    {
      hide At, Distinct;
      ghost var before := tasks;
      ghost var nodes := Nodes();
      var state := new ListItem(|tasks|);
      var event := new ListItem(|tasks|);
      tasks := tasks + [TaskNodes(state, event)];
      assert Nodes() == nodes + {state, event} by { NodesGrow(before, state, event); }
      forall j | 0 <= j < |lists| ensures Holds(j, ids[j]) {
        assert old(Holds(j, ids[j]));
        MapsGrow(lists[j].items, before, tasks, ids[j], j > NUM_PRIORITIES);
      }
    }

    lemma NodesGrow(before: seq<TaskNodes>, state: ListItem, event: ListItem)
      requires tasks == before + [TaskNodes(state, event)]
      ensures Nodes() == (set b | b in before :: b.state) + (set b | b in before :: b.event) + {state, event}
    {
      assert tasks[|before|] == TaskNodes(state, event);
      forall b | b in before ensures b in tasks {
        var i :| 0 <= i < |before| && before[i] == b;
        assert tasks[i] == b;
      }
    }
  }

  lemma MapsGrow(items: seq<ListItem>, before: seq<TaskNodes>, tasks: seq<TaskNodes>, ids: seq<nat>, event: bool)
    requires Maps(items, before, ids, event) && |before| <= |tasks| && before == tasks[..|before|]
    ensures Maps(items, tasks, ids, event)
  {
  }
}
