/**
  Work items and worklists as the controller has them: heap objects linked through their `next` fields.
  Every operation is proved against the sequence it stands for.
 */
module Worklists {
  import opened UInt64
  import opened WorkItems

  class WorkItem {
    const id: nat
    const command: Command
    const trigger: Trigger
    const period: u64
    var actionTime: u64
    var next: WorkItem?

    constructor (id: nat, command: Command, trigger: Trigger, n: u64)
      requires trigger == Now ==> n == 0
      ensures next == null && Value() == Item(id, command, trigger, n, n)
    {
      this.id := id;
      this.command := command;
      this.trigger := trigger;
      this.period := n;
      actionTime := n;
      next := null;
    }

    function Value(): Item
      reads this
    {
      Item(id, command, trigger, actionTime, period)
    }
  }

  /** The values of the items of a list. */
  ghost function Values(nodes: seq<WorkItem>): (s: seq<Item>)
    reads nodes
    ensures |s| == |nodes| && forall i :: 0 <= i < |s| ==> s[i] == nodes[i].Value()
  {
    seq(|nodes|, i requires 0 <= i < |nodes| reads nodes => nodes[i].Value())
  }

  lemma ValuesAre(nodes: seq<WorkItem>, s: seq<Item>)
    requires |nodes| == |s| && forall i :: 0 <= i < |s| ==> s[i] == nodes[i].Value()
    ensures Values(nodes) == s
  {
  }

  /** Splicing `wi` in at position `k` of a list with values `s` is the ordered insertion of its value. */
  lemma SpliceIsInsertOrdered(nodes: seq<WorkItem>, s: seq<Item>, wi: WorkItem, k: nat)
    requires |nodes| == |s| && k <= |s| && forall i :: 0 <= i < |s| ==> s[i] == nodes[i].Value()
    requires forall i :: 0 <= i < k ==> s[i].time <= wi.actionTime
    requires k < |s| ==> wi.actionTime < s[k].time
    ensures Values(nodes[..k] + [wi] + nodes[k..]) == InsertOrdered(s, wi.Value())
  {
    InsertAt(s, wi.Value(), k);
    var ns, t := nodes[..k] + [wi] + nodes[k..], s[..k] + [wi.Value()] + s[k..];
    forall i | 0 <= i < |t|
      ensures t[i] == ns[i].Value()
    {
      if i < k {
        assert t[i] == s[i] && ns[i] == nodes[i];
      } else if i == k {
        assert t[i] == wi.Value() && ns[i] == wi;
      } else {
        assert t[i] == s[i - 1] && ns[i] == nodes[i - 1];
      }
    }
    ValuesAre(ns, t);
  }

  ghost predicate Distinct(nodes: seq<WorkItem>)
  {
    forall i, j :: 0 <= i < j < |nodes| ==> nodes[i] != nodes[j]
  }

  ghost predicate Linked(nodes: seq<WorkItem>)
    reads nodes
  {
    && (forall i {:trigger nodes[i].next} :: 0 <= i < |nodes| - 1 ==> nodes[i].next == nodes[i + 1])
    && (nodes != [] ==> nodes[|nodes| - 1].next == null)
  }

  ghost function Without(nodes: seq<WorkItem>, k: nat): seq<WorkItem>
    requires k < |nodes|
  {
    nodes[..k] + nodes[k + 1..]
  }

  lemma WithoutElements(nodes: seq<WorkItem>, k: nat)
    requires k < |nodes| && Distinct(nodes)
    ensures |Without(nodes, k)| == |nodes| - 1 && Distinct(Without(nodes, k))
    ensures forall i :: 0 <= i < |nodes| - 1 ==> Without(nodes, k)[i] == if i < k then nodes[i] else nodes[i + 1]
    ensures forall i :: 0 <= i < |nodes| - 1 ==> Without(nodes, k)[i] != nodes[k]
  {
  }

  lemma WithElements(nodes: seq<WorkItem>, wi: WorkItem, k: nat)
    requires k <= |nodes| && Distinct(nodes) && wi !in nodes
    ensures var ns := nodes[..k] + [wi] + nodes[k..];
            && |ns| == |nodes| + 1 && Distinct(ns)
            && forall i :: 0 <= i < |ns| ==> ns[i] == if i < k then nodes[i] else if i == k then wi else nodes[i - 1]
  {
  }

  lemma WithoutValues(nodes: seq<WorkItem>, s: seq<Item>, k: nat)
    requires |nodes| == |s| && k < |s| && forall i :: 0 <= i < |s| ==> s[i] == nodes[i].Value()
    ensures Values(Without(nodes, k)) == s[..k] + s[k + 1..]
  {
    ValuesAre(Without(nodes, k), s[..k] + s[k + 1..]);
  }

  /** The item at position `k`, or null past the end. */
  ghost function At(nodes: seq<WorkItem>, k: nat): WorkItem?
  {
    if k < |nodes| then nodes[k] else null
  }

  /** A marker: mentioning it for a list makes its validity known in detail. */
  ghost predicate Inside(list: WorkList, n: int)
  {
    true
  }

  class WorkList {
    var head: WorkItem?
    var tail: WorkItem?
    ghost var nodes: seq<WorkItem>
    ghost var contents: seq<Item>
    /** This list and the items on it. */
    ghost var Repr: set<object>

    /** The `next` fields run through `nodes` from `head` to `tail`, without repetition. */
    ghost predicate Chain()
      reads this, Repr
    {
      && this in Repr && (forall k :: 0 <= k < |nodes| ==> nodes[k] in Repr)
      && Distinct(nodes)
      && Linked(nodes)
      && head == (if nodes == [] then null else nodes[0])
      && tail == (if nodes == [] then null else nodes[|nodes| - 1])
    }

    /** The chain is intact and `contents` are the values of its items. */
    ghost predicate Intact()
      reads this, Repr
    {
      Chain() && contents == Values(nodes)
    }

    /** The same, spelled out for the solver only where `Inside` is mentioned for this list. */
    ghost predicate Valid()
      reads this, Repr
      ensures Valid() ==> this in Repr && |contents| == |nodes|
    {
      this in Repr && |contents| == |nodes| && forall n :: Inside(this, n) ==> Intact()
    }

    lemma HeadIsFirst()
      requires Valid()
      ensures head == null <==> contents == []
      ensures head != null ==> head in Repr && head.Value() == contents[0]
    {
      assert Inside(this, 0);
    }

    constructor ()
      ensures IsNew()
    {
      head, tail := null, null;
      nodes, contents, Repr := [], [], {this};
    }

    ghost predicate IsNew()
      reads this
    {
      head == null && tail == null && nodes == [] && contents == [] && Repr == {this}
    }

    lemma NewIsEmpty()
      requires IsNew()
      ensures Valid()
    {
    }

    // ----- adding at the tail

    method LinkTail(wi: WorkItem)
      requires Chain() && wi !in Repr && wi.next == null
      modifies Repr, wi
      ensures Chain() && contents == old(contents) && nodes == old(nodes) + [wi] && Repr == old(Repr) + {wi}
      ensures wi.Value() == old(wi.Value())
      ensures forall k :: 0 <= k < |old(nodes)| ==> nodes[k].Value() == old(nodes[k].Value())
    {
      if head == null {
        head, tail := wi, wi;
      } else {
        tail.next := wi;
        tail := wi;
      }
      nodes, Repr := nodes + [wi], Repr + {wi};
    }

    /** Add a work item at the tail. */
    method Add(wi: WorkItem)
      requires Valid() && wi !in Repr && wi.next == null
      modifies Repr, wi
      ensures Valid() && Repr == old(Repr) + {wi}
      ensures contents == old(contents) + [old(wi.Value())]
    {
      assert Inside(this, 0);
      LinkTail(wi);
      contents := contents + [wi.Value()];
      ValuesAre(nodes, contents);
    }

    // ----- removing

    /** Find the item in front of the one numbered `k`. */
    method Predecessor(item: WorkItem, ghost k: nat) returns (scan: WorkItem)
      requires Chain() && 0 < k < |nodes| && nodes[k] == item
      ensures scan == nodes[k - 1]
    {
      scan := head;
      ghost var i := 0;
      while scan.next != item
        invariant 0 <= i < k && scan == nodes[i]
        decreases k - i
      {
        scan := scan.next;
        i := i + 1;
      }
    }

    /** Take the head out of the chain and clear its link. */
    method UnlinkHead(item: WorkItem)
      requires Chain() && nodes != [] && item == head
      modifies this, item
      ensures Chain() && contents == old(contents) && nodes == Without(old(nodes), 0) && item.next == null
      ensures Repr == old(Repr) - {item} && item.Value() == old(item.Value())
    {
      if head == tail {
        head, tail := null, null;
      } else {
        head := head.next;
      }
      item.next := null;
      WithoutElements(nodes, 0);
      nodes, Repr := Without(nodes, 0), Repr - {item};
    }

    /** Take `item`, number `k`, out of the chain behind `scan` and clear its link. */
    method UnlinkBehind(scan: WorkItem, item: WorkItem, ghost k: nat)
      requires Chain() && 0 < k < |nodes| && nodes[k] == item && nodes[k - 1] == scan
      modifies this, scan, item
      ensures Chain() && contents == old(contents) && nodes == Without(old(nodes), k) && item.next == null
      ensures Repr == old(Repr) - {item}
      ensures item.Value() == old(item.Value()) && scan.Value() == old(scan.Value())
    {
      WithoutElements(nodes, k);
      scan.next := item.next;
      if item == tail {
        tail := scan;
      }
      item.next := null;
      nodes, Repr := Without(nodes, k), Repr - {item};
    }

    /** Take `item` out of the chain and clear its link. */
    method Unlink(item: WorkItem, ghost k: nat)
      requires Chain() && k < |nodes| && nodes[k] == item
      modifies Repr
      ensures Chain() && contents == old(contents) && nodes == Without(old(nodes), k) && item.next == null
      ensures Repr == old(Repr) - {item}
      ensures forall i :: 0 <= i < |old(nodes)| ==> old(nodes)[i].Value() == old(nodes[i].Value())
    {
      if item == head {
        assert k == 0;
        UnlinkHead(item);
      } else {
        assert k > 0;
        var scan := Predecessor(item, k);
        UnlinkBehind(scan, item, k);
      }
    }

    /** Take item number `k` out of the list. */
    method Extract(item: WorkItem, ghost k: nat)
      requires Valid() && k < |nodes| && nodes[k] == item
      modifies Repr
      ensures Valid() && nodes == Without(old(nodes), k) && Repr == old(Repr) - {item}
      ensures contents == old(contents)[..k] + old(contents)[k + 1..]
      ensures item.next == null && item.Value() == old(item.Value())
    {
      assert Inside(this, 0);
      ghost var was, s := nodes, contents;
      Unlink(item, k);
      contents := s[..k] + s[k + 1..];
      WithoutValues(was, s, k);
    }

    /** Remove `item`, wherever it is in the list; removing nothing changes nothing. */
    method RemoveItem(item: WorkItem?, ghost k: nat) returns (r: WorkItem?)
      requires Valid() && (item != null ==> k < |nodes| && nodes[k] == item)
      modifies Repr
      ensures r == item && Valid()
      ensures nodes == if item == null then old(nodes) else Without(old(nodes), k)
      ensures Repr == if item == null then old(Repr) else old(Repr) - {item}
      ensures contents == if item == null then old(contents) else old(contents)[..k] + old(contents)[k + 1..]
      ensures item != null ==> item.next == null && item.Value() == old(item.Value())
    {
      if item == null {
        return null;
      }
      Extract(item, k);
      return item;
    }

    /** Remove the head; an empty list is a fatal error in the program. */
    method Remove() returns (item: WorkItem)
      requires Valid() && contents != []
      modifies Repr
      ensures item in old(Repr) && Repr == old(Repr) - {item}
      ensures item.next == null && item.Value() == old(contents)[0]
      ensures Valid() && contents == old(contents)[1..]
    {
      assert Inside(this, 0);
      item := head;
      var _ := RemoveItem(item, 0);
    }

    // ----- clearing progress items

    /** Look at item number `j`, delete it if it is a progress item, and step to the one behind it. */
    method ClearItem(scan: WorkItem, ghost j: nat) returns (following: WorkItem?)
      requires Valid() && j < |nodes| && nodes[j] == scan
      modifies Repr
      ensures Valid() && Repr <= old(Repr)
      ensures contents == if IsProgress(old(scan.Value())) then old(contents)[..j] + old(contents)[j + 1..]
                            else old(contents)
      ensures following == At(nodes, if IsProgress(old(scan.Value())) then j else j + 1)
    {
      assert Inside(this, 0);
      following := scan.next;
      if scan.command.Progress? {
        WithoutElements(nodes, j);
        var _ := RemoveItem(scan, j);
      }
    }

    /** The first `i` of the values `s` have been looked at, `j` items were kept, and `scan` is next. */
    ghost predicate Scanning(scan: WorkItem?, s: seq<Item>, i: nat, j: nat)
      reads this
    {
      |contents| == |nodes| && ClearedTo(contents, s, i, j) && scan == At(nodes, j)
    }

    lemma ScanDone(s: seq<Item>, i: nat, j: nat)
      requires Scanning(null, s, i, j)
      ensures contents == WithoutProgress(s)
    {
      StillToLookAt(contents, s, i, j);
      ClearedAll(contents, s, j);
    }

    method ClearNext(scan: WorkItem, ghost s: seq<Item>, ghost i: nat, ghost j: nat)
      returns (following: WorkItem?, ghost k: nat)
      requires Valid() && Scanning(scan, s, i, j)
      modifies Repr
      ensures Valid() && Repr <= old(Repr)
      ensures i < |s| && Scanning(following, s, i + 1, k)
    {
      assert Inside(this, 0);
      StillToLookAt(contents, s, i, j);
      ClearStep(contents, s, i, j);
      k := if IsProgress(s[i]) then j else j + 1;
      following := ClearItem(scan, j);
    }

    /** Delete every progress item. */
    method ClearProgress()
      requires Valid()
      modifies Repr
      ensures Valid() && Repr <= old(Repr)
      ensures contents == WithoutProgress(old(contents))
    {
      assert Inside(this, 0);
      ghost var s := contents;
      ghost var i, j := 0, 0;
      var scan := head;
      while scan != null
        invariant Valid() && Repr <= old(Repr)
        invariant i <= |s| && Scanning(scan, s, i, j)
        decreases |s| - i
      {
        scan, j := ClearNext(scan, s, i, j);
        i := i + 1;
      }
      ScanDone(s, i, j);
    }

    // ----- ordered insertion

    /** Find the last item that is due no later than `wi`. */
    method LastNotAfter(wi: WorkItem) returns (scan: WorkItem, ghost k: nat)
      requires Chain() && nodes != [] && nodes[0].actionTime <= wi.actionTime
      ensures 1 <= k <= |nodes| && scan == nodes[k - 1]
      ensures forall i :: 0 <= i < k ==> nodes[i].actionTime <= wi.actionTime
      ensures k < |nodes| ==> wi.actionTime < nodes[k].actionTime
    {
      scan, k := head, 1;
      while scan != tail && scan.next.actionTime <= wi.actionTime
        invariant 1 <= k <= |nodes| && scan == nodes[k - 1]
        invariant forall i :: 0 <= i < k ==> nodes[i].actionTime <= wi.actionTime
        decreases |nodes| - k
      {
        scan := scan.next;
        k := k + 1;
      }
    }

    /** Put `wi` in front of the head. */
    method LinkHead(wi: WorkItem)
      requires Chain() && wi !in Repr && wi.next == null
      modifies this, wi
      ensures Chain() && contents == old(contents) && nodes == [wi] + old(nodes) && Repr == old(Repr) + {wi}
      ensures wi.Value() == old(wi.Value())
      ensures forall k :: 0 <= k < |old(nodes)| ==> old(nodes)[k].Value() == old(nodes[k].Value())
    {
      if head == null {
        head, tail := wi, wi;
      } else {
        wi.next := head;
        head := wi;
      }
      nodes, Repr := [wi] + nodes, Repr + {wi};
    }

    /** Put `wi` behind `scan`, the item in front of position `k`. */
    method LinkAfter(scan: WorkItem, wi: WorkItem, ghost k: nat)
      requires Chain() && wi !in Repr && wi.next == null
      requires 1 <= k <= |nodes| && scan == nodes[k - 1]
      modifies this, scan, wi
      ensures Chain() && contents == old(contents) && Repr == old(Repr) + {wi}
      ensures nodes == old(nodes)[..k] + [wi] + old(nodes)[k..]
      ensures wi.Value() == old(wi.Value()) && scan.Value() == old(scan.Value())
    {
      WithElements(nodes, wi, k);
      wi.next := scan.next;
      scan.next := wi;
      if scan == tail {
        tail := wi;
      }
      nodes, Repr := nodes[..k] + [wi] + nodes[k..], Repr + {wi};
    }

    /** Link `wi` in at the position that its time asks for. */
    method LinkOrdered(wi: WorkItem) returns (ghost k: nat)
      requires Valid() && wi !in Repr && wi.next == null
      modifies Repr, wi
      ensures k <= |contents| == |old(nodes)| && Chain() && contents == old(contents) && Repr == old(Repr) + {wi}
      ensures nodes == old(nodes)[..k] + [wi] + old(nodes)[k..]
      ensures wi.Value() == old(wi.Value())
      ensures forall k :: 0 <= k < |old(nodes)| ==> old(nodes)[k].Value() == old(nodes[k].Value())
      ensures forall i :: 0 <= i < k ==> contents[i].time <= wi.actionTime
      ensures k < |contents| ==> wi.actionTime < contents[k].time
    {
      assert Inside(this, 0);
      if head == null || head.actionTime > wi.actionTime {
        k := 0;
        LinkHead(wi);
      } else {
        var scan;
        scan, k := LastNotAfter(wi);
        LinkAfter(scan, wi, k);
      }
    }

    /** Insert a work item ordered by action time, behind items with the same time. */
    method InsertOrdered(wi: WorkItem)
      requires Valid() && wi !in Repr && wi.next == null
      requires wi.trigger == Now ==> wi.actionTime == 0
      modifies Repr, wi
      ensures Valid() && Repr == old(Repr) + {wi}
      ensures contents == WorkItems.InsertOrdered(old(contents), old(wi.Value()))
    {
      assert Inside(this, 0);
      ghost var s, was := contents, nodes;
      ghost var k := LinkOrdered(wi);
      SpliceIsInsertOrdered(was, s, wi, k);
      contents := WorkItems.InsertOrdered(s, wi.Value());
    }
  }
}
