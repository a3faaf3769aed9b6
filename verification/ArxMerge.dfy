/** The block-level three-way merge of editor documents. */
module ArxMerge {
  import opened Wrappers
  import opened ConflictNames
  import opened Splicing

  /** A top-level block: its own identifier, the text it is compared by, and all the rest of it. */
  datatype Node = Node(arxId: Option<string>, comparable: string, rest: string)

  datatype Block = Block(id: string, node: Node)

  datatype Merged =
    | Kept(node: Node)
    | EditEdit(local: Node, remote: Node)
    | EditDelete(ours: Option<Node>, theirs: Option<Node>)
    | EmptyParagraph
  {
    predicate IsConflict() {
      EditEdit? || EditDelete?
    }

    /** Whether a reader of the merged document finds this block, or one that compares equal, in it. */
    predicate Shows(n: Node) {
      match this
      case Kept(node) => node.comparable == n.comparable
      case EditEdit(l, r) => n == l || n == r
      case EditDelete(l, r) => Some(n) == l || Some(n) == r
      case EmptyParagraph => false
    }
  }

  datatype Outcome = Outcome(order: seq<string>, resolved: map<string, Merged>, content: seq<Merged>, conflicts: nat)

  function Ids(blocks: seq<Block>): (r: seq<string>)
    ensures |r| == |blocks| && forall i :: 0 <= i < |r| ==> r[i] == blocks[i].id
  {
    seq(|blocks|, i requires 0 <= i < |blocks| => blocks[i].id)
  }

  function ById(blocks: seq<Block>): (m: map<string, Node>)
    ensures forall id :: id in m <==> id in Ids(blocks)
  {
    if blocks == [] then map[]
    else
      var front, last := blocks[..|blocks| - 1], blocks[|blocks| - 1];
      assert Ids(blocks) == Ids(front) + [last.id];
      ById(front)[last.id := last.node]
  }

  lemma {:induction false} ByIdFinds(blocks: seq<Block>, i: nat)
    requires Distinct(Ids(blocks)) && i < |blocks|
    ensures ById(blocks)[blocks[i].id] == blocks[i].node
    decreases |blocks|
  {
    var front := blocks[..|blocks| - 1];
    assert Ids(blocks) == Ids(front) + [blocks[|blocks| - 1].id];
    assert Ids(blocks)[i] == blocks[i].id;
    if i < |front| {
      assert front[i] == blocks[i];
      ByIdFinds(front, i);
      assert Ids(blocks)[i] != Ids(blocks)[|front|];
    }
  }

  /** What a block is compared by; absent when the side has no such block. */
  function Form(n: Option<Node>): Option<string> {
    if n.Some? then Some(n.value.comparable) else None
  }

  function Shown(m: Option<Merged>): Option<string> {
    if m.Some? && m.value.Kept? then Some(m.value.node.comparable) else None
  }

  /** A three-way merge of one block: a conflict exactly when both sides left the base and disagree, and then it holds
    both versions, each as its own side's; otherwise what the two agree on, or what the one that left the base has. */
  predicate ThreeWay(base: Option<Node>, local: Option<Node>, remote: Option<Node>, m: Option<Merged>) {
    if Form(local) != Form(remote) && Form(local) != Form(base) && Form(remote) != Form(base) then
      && m.Some? && m.value.IsConflict()
      && (local.Some? ==> m.value.Shows(local.value)) && (remote.Some? ==> m.value.Shows(remote.value))
      && (m.value.EditEdit? <==> local.Some? && remote.Some?)
      && (m.value.EditEdit? ==> Some(m.value.local) == local && Some(m.value.remote) == remote)
      && (m.value.EditDelete? ==> m.value.ours == local && m.value.theirs == remote)
    else
      && Shown(m) == (if Form(local) == Form(base) then Form(remote) else Form(local))
      && (m.Some? ==> m.value.Kept? && Some(m.value.node) in {base, local, remote})
  }

  /** The fate of one identifier; none when it is dropped. */
  function Resolve(base: Option<Node>, local: Option<Node>, remote: Option<Node>): (m: Option<Merged>)
    ensures ThreeWay(base, local, remote, m)
  {
    if base.Some? then
      var localChanged := local.Some? && local.value.comparable != base.value.comparable;
      var remoteChanged := remote.Some? && remote.value.comparable != base.value.comparable;
      if local.None? && remote.None? then None
      else if local.None? || remote.None? then
        if (if local.None? then remoteChanged else localChanged) then Some(EditDelete(local, remote)) else None
      else if !localChanged && !remoteChanged then Some(Kept(base.value))
      else if localChanged && !remoteChanged then Some(Kept(local.value))
      else if !localChanged && remoteChanged then Some(Kept(remote.value))
      else if local.value.comparable == remote.value.comparable then Some(Kept(local.value))
      else Some(EditEdit(local.value, remote.value))
    else if local.Some? && remote.Some? then
      if local.value.comparable == remote.value.comparable then Some(Kept(local.value))
      else Some(EditEdit(local.value, remote.value))
    else if local.Some? then Some(Kept(local.value))
    else if remote.Some? then Some(Kept(remote.value))
    else None
  }

  function Blocks(doc: seq<Node>): (r: seq<Block>)
    ensures |r| == |doc| && forall i :: 0 <= i < |doc| ==> r[i].node == doc[i] && r[i].id != ""
  {
    seq(|doc|, i requires 0 <= i < |doc| =>
      Block(if doc[i].arxId.Some? && doc[i].arxId.value != "" then doc[i].arxId.value else "#" + Decimal(i), doc[i]))
  }

  ghost function ConflictIds(resolved: map<string, Merged>): set<string> {
    set id | id in resolved && resolved[id].IsConflict()
  }

  /** The merge of three lists of blocks. */
  ghost predicate IsMerge(base: seq<Block>, local: seq<Block>, remote: seq<Block>, out: Outcome) {
    && (forall id :: ThreeWay(Get(ById(base), id), Get(ById(local), id), Get(ById(remote), id), Get(out.resolved, id)))
    && out.conflicts == |ConflictIds(out.resolved)|
    && (forall id :: id in out.order ==> id in out.resolved)
    && |out.content| == (if out.order == [] then 1 else |out.order|)
    && (out.order == [] ==> out.content == [EmptyParagraph])
    && (forall i :: 0 <= i < |out.order| ==> out.content[i] == out.resolved[out.order[i]])
    && (Distinct(Ids(base)) && Distinct(Ids(local)) && Distinct(Ids(remote)) ==> IsOrder(base, local, remote, out))
  }

  /** Every surviving identifier once: base order, then what local added behind its predecessors, then what remote
    added. */
  ghost predicate IsOrder(base: seq<Block>, local: seq<Block>, remote: seq<Block>, out: Outcome) {
    && Members(out.order) == out.resolved.Keys
    && var kept := out.resolved.Keys;
       var survivors := Only(Ids(base), kept);
       var mine := Only(out.order, Members(Ids(base)) + Members(Ids(local)));
       && Spliced(survivors, mine, Ids(local), kept)
       && Spliced(mine, out.order, Ids(remote), kept)
  }

  method TopBlocks(doc: seq<Node>) returns (blocks: seq<Block>)
    ensures blocks == Blocks(doc)
  {
    blocks := [];
    for k := 0 to |doc|
      invariant blocks == Blocks(doc)[..k]
    {
      var id := doc[k].arxId;
      blocks := blocks + [Block(if id.Some? && id.value != "" then id.value else "#" + Decimal(|blocks|), doc[k])];
    }
  }

  /** Each of the first `k` identifiers leads to the one before it. */
  ghost predicate Leads(preds: map<string, Option<string>>, ids: seq<string>, k: nat)
    requires k <= |ids|
  {
    && (forall id :: id in preds <==> id in ids[..k])
    && (Distinct(ids) ==> forall i :: 0 <= i < k ==> preds[ids[i]] == if i == 0 then None else Some(ids[i - 1]))
  }

  lemma LeadsOn(preds: map<string, Option<string>>, ids: seq<string>, k: nat)
    requires k < |ids| && Leads(preds, ids, k)
    ensures Leads(preds[ids[k] := if k == 0 then None else Some(ids[k - 1])], ids, k + 1)
  {
    assert ids[..k + 1] == ids[..k] + [ids[k]];
    var next := preds[ids[k] := if k == 0 then None else Some(ids[k - 1])];
    if Distinct(ids) {
      forall i | 0 <= i < k
        ensures ids[i] in next && next[ids[i]] == preds[ids[i]]
      {
        Apart(ids, i, k);
        assert ids[..k][i] == ids[i];
      }
    }
  }

  lemma Apart(ids: seq<string>, i: nat, k: nat)
    requires Distinct(ids) && i < k < |ids|
    ensures ids[i] != ids[k]
  {
  }

  method Predecessors(blocks: seq<Block>) returns (preds: map<string, Option<string>>)
    ensures Leads(preds, Ids(blocks), |blocks|)
  {
    hide Distinct;
    preds := map[];
    var previous := None;
    for k := 0 to |blocks|
      invariant Leads(preds, Ids(blocks), k)
      invariant previous == if k == 0 then None else Some(Ids(blocks)[k - 1])
    {
      hide Leads;
      LeadsOn(preds, Ids(blocks), k);
      preds := preds[blocks[k].id := previous];
      previous := Some(blocks[k].id);
    }
  }

  /** The order so far, after the first `k` identifiers. */
  ghost predicate SplicedUpTo(before: seq<string>, order: seq<string>, ids: seq<string>, kept: set<string>, k: nat)
    requires k <= |ids|
  {
    && (forall x :: x in order <==> x in before || (x in ids[..k] && x in kept))
    && (Distinct(before) && Distinct(ids) ==> Spliced(before, order, ids[..k], kept))
  }

  lemma SplicedOn(before: seq<string>, order: seq<string>, ids: seq<string>, kept: set<string>, k: nat,
                  after: seq<string>, preds: map<string, Option<string>>)
    requires k < |ids| && SplicedUpTo(before, order, ids, kept, k) && Leads(preds, ids, |ids|)
      && Members(before) <= kept
    requires
      if ids[k] !in kept || ids[k] in order then after == order
      else after == Insert(order, Anchor(order, preds, ids[k]) + 1, ids[k])
    ensures SplicedUpTo(before, after, ids, kept, k + 1)
  {
    hide Only, Spliced, Insert, Distinct;
    assert ids[..k + 1] == ids[..k] + [ids[k]];
    assert ids[..|ids|] == ids;
    if ids[k] !in kept || ids[k] in order {
      if Distinct(before) && Distinct(ids) {
        SpliceSkip(before, order, ids, kept, k);
      }
    } else {
      var a := Anchor(order, preds, ids[k]) + 1;
      InsertMembers(order, a, ids[k]);
      if Distinct(before) && Distinct(ids) {
        SpliceOne(before, order, ids, kept, k, a);
      }
    }
  }

  function Anchor(order: seq<string>, preds: map<string, Option<string>>, id: string): (i: int)
    requires id in preds
    ensures -1 <= i < |order|
  {
    if preds[id].Some? then IndexOf(order, preds[id].value) else -1
  }

  method InsertNew(before: seq<string>, blocks: seq<Block>, preds: map<string, Option<string>>,
                   resolved: map<string, Merged>)
    returns (order: seq<string>)
    requires Leads(preds, Ids(blocks), |blocks|)
    requires forall x :: x in before ==> x in resolved
    ensures forall x :: x in order <==> x in before || (x in Ids(blocks) && x in resolved)
    ensures Distinct(before) && Distinct(Ids(blocks)) ==> Spliced(before, order, Ids(blocks), resolved.Keys)
  {
    hide Spliced, Distinct, Insert, Ids;
    ghost var ids, kept := Ids(blocks), resolved.Keys;
    order := before;
    assert ids[..0] == [] && ids[..|ids|] == ids;
    if Distinct(before) {
      SpliceStarts(before, kept);
    }
    for k := 0 to |blocks|
      invariant SplicedUpTo(before, order, ids, kept, k)
    {
      hide SplicedUpTo, Leads;
      var id := blocks[k].id;
      assert id in preds;
      ghost var was := order;
      if id in resolved && id !in order {
        order := Insert(order, Anchor(order, preds, id) + 1, id);
      }
      SplicedOn(before, was, ids, kept, k, order, preds);
    }
  }

  lemma NoneIsNone()
    ensures ThreeWay(None, None, None, None)
  {
  }

  ghost predicate AllResolved(base: seq<Block>, local: seq<Block>, remote: seq<Block>, resolved: map<string, Merged>) {
    forall id :: ThreeWay(Get(ById(base), id), Get(ById(local), id), Get(ById(remote), id), Get(resolved, id))
  }

  lemma ResolvedAreListed(base: seq<Block>, local: seq<Block>, remote: seq<Block>, resolved: map<string, Merged>,
                          id: string)
    requires AllResolved(base, local, remote, resolved) && id in resolved
    ensures id in Ids(base) || id in Ids(local) || id in Ids(remote)
  {
    hide ById;
    assert ThreeWay(Get(ById(base), id), Get(ById(local), id), Get(ById(remote), id), Get(resolved, id));
  }

  method ResolveAll(base: seq<Block>, local: seq<Block>, remote: seq<Block>)
    returns (resolved: map<string, Merged>, conflicts: nat)
    ensures AllResolved(base, local, remote, resolved)
    ensures conflicts == |ConflictIds(resolved)|
  {
    hide ThreeWay, Resolve;
    var baseById, localById, remoteById := ById(base), ById(local), ById(remote);
    hide ById;
    conflicts, resolved := 0, map[];
    var todo := baseById.Keys + localById.Keys + remoteById.Keys;
    NoneIsNone();
    while todo != {}
      invariant todo !! resolved.Keys
      invariant forall id :: id !in todo ==>
        ThreeWay(Get(baseById, id), Get(localById, id), Get(remoteById, id), Get(resolved, id))
      invariant conflicts == |ConflictIds(resolved)|
    {
      var id :| id in todo;
      var m := Resolve(Get(baseById, id), Get(localById, id), Get(remoteById, id));
      todo := todo - {id};
      if m.Some? {
        ghost var was := ConflictIds(resolved);
        resolved := resolved[id := m.value];
        if m.value.IsConflict() {
          conflicts := conflicts + 1;
          assert ConflictIds(resolved) == was + {id};
        } else {
          assert ConflictIds(resolved) == was;
        }
      }
    }
  }

  lemma Ordered(base: seq<Block>, local: seq<Block>, remote: seq<Block>, out: Outcome, mine: seq<string>)
    requires AllResolved(base, local, remote, out.resolved)
    requires Distinct(Ids(base)) && Distinct(Ids(local)) && Distinct(Ids(remote))
    requires var survivors := Only(Ids(base), out.resolved.Keys);
             Distinct(survivors) ==> Spliced(survivors, mine, Ids(local), out.resolved.Keys)
    requires Distinct(mine) ==> Spliced(mine, out.order, Ids(remote), out.resolved.Keys)
    ensures IsOrder(base, local, remote, out)
  {
    hide ById, Only, Ids, AllResolved, PlacedAt;
    var kept := out.resolved.Keys;
    OnlyDistinct(Ids(base), kept);
    forall id | id in kept
      ensures id in out.order
    {
      ResolvedAreListed(base, local, remote, out.resolved, id);
    }
    OnlySame(out.order, Members(Ids(base)) + Members(Ids(local)), Members(mine));
  }

  // Documents: what makes two blocks the same block.

  ghost predicate Named(n: Node) {
    n.arxId.Some? && n.arxId.value != ""
  }

  /** A block goes by its own identifier, and by its place where it has none. */
  ghost predicate GoesBy(doc: seq<Node>, i: nat, id: string)
    requires i < |doc|
  {
    if Named(doc[i]) then doc[i].arxId == Some(id) else id == "#" + Decimal(i)
  }

  /** No two blocks go by the same name. */
  ghost predicate Clear(doc: seq<Node>) {
    forall i, j, id :: 0 <= i < j < |doc| && GoesBy(doc, i, id) ==> !GoesBy(doc, j, id)
  }

  /** The block of a document that goes by a name. */
  ghost function NodeOf(doc: seq<Node>, id: string): Option<Node> {
    if i: nat :| i < |doc| && GoesBy(doc, i, id) then Some(doc[i]) else None
  }

  /** Both sides left the base, for different things. */
  ghost predicate Disputed(base: seq<Node>, local: seq<Node>, remote: seq<Node>, id: string) {
    && Form(NodeOf(local, id)) != Form(NodeOf(remote, id))
    && Form(NodeOf(local, id)) != Form(NodeOf(base, id)) && Form(NodeOf(remote, id)) != Form(NodeOf(base, id))
  }

  ghost predicate AreDisputed(base: seq<Node>, local: seq<Node>, remote: seq<Node>, ids: set<string>) {
    forall id :: id in ids <==> Disputed(base, local, remote, id)
  }

  /** The merge of three documents: every block is merged with those that go by the same name, each that is left is in
    the content once, and the conflicts counted are the blocks in dispute. */
  ghost predicate MergesDocuments(base: seq<Node>, local: seq<Node>, remote: seq<Node>, out: Outcome) {
    && (forall id :: ThreeWay(NodeOf(base, id), NodeOf(local, id), NodeOf(remote, id), Get(out.resolved, id)))
    && Distinct(out.order) && Members(out.order) == out.resolved.Keys
    && (out.order != [] ==>
          |out.content| == |out.order|
          && forall k :: 0 <= k < |out.order| ==> out.content[k] == out.resolved[out.order[k]])
    && exists ids: set<string> ::
         AreDisputed(base, local, remote, ids) && out.conflicts == |ids|
  }

  lemma NamesAreIds(doc: seq<Node>, i: nat)
    requires i < |doc|
    ensures GoesBy(doc, i, Blocks(doc)[i].id)
    ensures forall id :: GoesBy(doc, i, id) ==> id == Blocks(doc)[i].id
  {
  }

  lemma ClearIds(doc: seq<Node>)
    requires Clear(doc)
    ensures Distinct(Ids(Blocks(doc)))
  {
    hide Blocks, GoesBy;
    var ids := Ids(Blocks(doc));
    forall i, j | 0 <= i < j < |ids|
      ensures ids[i] != ids[j]
    {
      NamesAreIds(doc, i);
      NamesAreIds(doc, j);
    }
  }

  lemma NodeIsBlock(doc: seq<Node>, id: string)
    requires Clear(doc)
    ensures Get(ById(Blocks(doc)), id) == NodeOf(doc, id)
  {
    hide Blocks, GoesBy, Clear, Distinct;
    ClearIds(doc);
    var blocks := Blocks(doc);
    forall i: nat | i < |doc| && GoesBy(doc, i, id)
      ensures Get(ById(blocks), id) == Some(doc[i])
    {
      NamesAreIds(doc, i);
      ByIdFinds(blocks, i);
      assert Ids(blocks)[i] == id;
    }
    if id in Ids(blocks) {
      var i :| 0 <= i < |doc| && Ids(blocks)[i] == id;
      NamesAreIds(doc, i);
    }
  }

  lemma DocumentsAreMerged(base: seq<Node>, local: seq<Node>, remote: seq<Node>, out: Outcome)
    requires Clear(base) && Clear(local) && Clear(remote)
    requires IsMerge(Blocks(base), Blocks(local), Blocks(remote), out)
    ensures MergesDocuments(base, local, remote, out)
  {
    hide Blocks, ById, NodeOf, Clear, Only, Spliced, Ids, Distinct;
    ClearIds(base);
    ClearIds(local);
    ClearIds(remote);
    OrderDistinct(Blocks(base), Blocks(local), Blocks(remote), out);
    forall id
      ensures ThreeWay(NodeOf(base, id), NodeOf(local, id), NodeOf(remote, id), Get(out.resolved, id))
      ensures id in ConflictIds(out.resolved) <==> Disputed(base, local, remote, id)
    {
      NodeIsBlock(base, id);
      NodeIsBlock(local, id);
      NodeIsBlock(remote, id);
      assert ThreeWay(Get(ById(Blocks(base)), id), Get(ById(Blocks(local)), id), Get(ById(Blocks(remote)), id),
                      Get(out.resolved, id));
    }
    assert AreDisputed(base, local, remote, ConflictIds(out.resolved));
  }

  lemma NoBlocks()
    ensures Blocks([]) == [] && Clear([])
  {
  }

  method MergeArx(base: Option<seq<Node>>, local: seq<Node>, remote: seq<Node>) returns (out: Outcome)
    ensures IsMerge(if base.Some? then Blocks(base.value) else [], Blocks(local), Blocks(remote), out)
    ensures var from := if base.Some? then base.value else [];
            Clear(from) && Clear(local) && Clear(remote) ==> MergesDocuments(from, local, remote, out)
  {
    hide ById, Spliced, Distinct, ThreeWay, Blocks, Only, Ids, IsOrder, ConflictIds, Clear, MergesDocuments;
    var localBlocks := TopBlocks(local);
    var remoteBlocks := TopBlocks(remote);
    var baseBlocks := [];
    if base.Some? {
      baseBlocks := TopBlocks(base.value);
    }
    var resolved, conflicts := ResolveAll(baseBlocks, localBlocks, remoteBlocks);
    var survivors := Only(Ids(baseBlocks), resolved.Keys);
    var localPreds := Predecessors(localBlocks);
    var remotePreds := Predecessors(remoteBlocks);
    var mine := InsertNew(survivors, localBlocks, localPreds, resolved);
    var order := InsertNew(mine, remoteBlocks, remotePreds, resolved);
    var content :=
      if order == [] then [EmptyParagraph] else seq(|order|, i requires 0 <= i < |order| => resolved[order[i]]);
    out := Outcome(order, resolved, content, conflicts);
    if Distinct(Ids(baseBlocks)) && Distinct(Ids(localBlocks)) && Distinct(Ids(remoteBlocks)) {
      Ordered(baseBlocks, localBlocks, remoteBlocks, out, mine);
    }
    ghost var from := if base.Some? then base.value else [];
    NoBlocks();
    if Clear(from) && Clear(local) && Clear(remote) {
      DocumentsAreMerged(from, local, remote, out);
    }
  }

  /** A document whose blocks all have an identifier of their own, as the editor assigns them. */
  ghost predicate Identified(doc: seq<Node>) {
    && (forall i :: 0 <= i < |doc| ==> Named(doc[i]))
    && forall i, j :: 0 <= i < j < |doc| ==> doc[i].arxId != doc[j].arxId
  }

  lemma IdentifiedIsClear(doc: seq<Node>)
    requires Identified(doc)
    ensures Clear(doc)
    ensures forall i :: 0 <= i < |doc| ==> NodeOf(doc, doc[i].arxId.value) == Some(doc[i])
    ensures forall id :: NodeOf(doc, id).Some? ==>
      NodeOf(doc, id).value in doc && NodeOf(doc, id).value.arxId == Some(id)
  {
    forall i | 0 <= i < |doc|
      ensures NodeOf(doc, doc[i].arxId.value) == Some(doc[i])
    {
      assert GoesBy(doc, i, doc[i].arxId.value);
    }
  }

  /** A side has the block with this identifier as the base has it, or as the base has none. */
  ghost predicate AsInBase(base: seq<Node>, side: seq<Node>, id: string) {
    && (forall n :: n in side && n.arxId == Some(id) ==>
          exists b :: b in base && b.arxId == Some(id) && b.comparable == n.comparable)
    && forall b :: b in base && b.arxId == Some(id) ==> exists n :: n in side && n.arxId == Some(id)
  }

  /** A block that the base does not have, or has differently. */
  ghost predicate Edits(base: seq<Node>, n: Node) {
    forall b :: b in base && b.arxId == n.arxId ==> b.comparable != n.comparable
  }

  /** For documents with identifiers: every block a side changed or added is shown, wherever it stands; where no block
    was changed by both sides there is no conflict, whatever they inserted or moved; and the order lists identifiers of
    the documents, each once. */
  lemma IdentifiedMerge(base: seq<Node>, local: seq<Node>, remote: seq<Node>, out: Outcome)
    requires Identified(base) && Identified(local) && Identified(remote) && MergesDocuments(base, local, remote, out)
    ensures forall n :: n in local + remote && Edits(base, n) ==>
      exists k :: 0 <= k < |out.content| && out.content[k].Shows(n)
    ensures (forall id :: AsInBase(base, local, id) || AsInBase(base, remote, id)) ==> out.conflicts == 0
    ensures Distinct(out.order) && forall id :: id in out.order ==>
      exists n :: n in base + local + remote && n.arxId == Some(id)
  {
    hide NodeOf, Distinct, Identified, AsInBase, Edits, ThreeWay;
    IdentifiedIsClear(base);
    IdentifiedIsClear(local);
    IdentifiedIsClear(remote);
    forall n | n in local + remote && Edits(base, n)
      ensures exists k :: 0 <= k < |out.content| && out.content[k].Shows(n)
    {
      EditIsShown(base, local, remote, out, n);
    }
    if forall id :: AsInBase(base, local, id) || AsInBase(base, remote, id) {
      forall id
        ensures !Disputed(base, local, remote, id)
      {
        if AsInBase(base, local, id) {
          SameForm(base, local, id);
        } else {
          SameForm(base, remote, id);
        }
      }
      NoneDisputed(base, local, remote, out);
    }
    forall id | id in out.order
      ensures exists n :: n in base + local + remote && n.arxId == Some(id)
    {
      FromSomewhere(base, local, remote, out, id);
    }
  }

  lemma NoneDisputed(base: seq<Node>, local: seq<Node>, remote: seq<Node>, out: Outcome)
    requires MergesDocuments(base, local, remote, out) && forall id :: !Disputed(base, local, remote, id)
    ensures out.conflicts == 0
  {
    hide ThreeWay, Distinct, Disputed;
    var ids: set<string> :| AreDisputed(base, local, remote, ids) && out.conflicts == |ids|;
    assert ids == {};
  }

  lemma FromSomewhere(base: seq<Node>, local: seq<Node>, remote: seq<Node>, out: Outcome, id: string)
    requires Identified(base) && Identified(local) && Identified(remote) && MergesDocuments(base, local, remote, out)
    requires id in out.order
    ensures exists n :: n in base + local + remote && n.arxId == Some(id)
  {
    hide NodeOf, Distinct, Identified;
    IdentifiedIsClear(base);
    IdentifiedIsClear(local);
    IdentifiedIsClear(remote);
    assert id in out.resolved by {
      assert id in Members(out.order);
    }
    assert ThreeWay(NodeOf(base, id), NodeOf(local, id), NodeOf(remote, id), Get(out.resolved, id));
    assert NodeOf(base, id).Some? || NodeOf(local, id).Some? || NodeOf(remote, id).Some?;
    if NodeOf(base, id).Some? {
      assert NodeOf(base, id).value in base + local + remote;
    } else if NodeOf(local, id).Some? {
      assert NodeOf(local, id).value in base + local + remote;
    } else {
      assert NodeOf(remote, id).value in base + local + remote;
    }
  }

  lemma EditIsShown(base: seq<Node>, local: seq<Node>, remote: seq<Node>, out: Outcome, n: Node)
    requires Identified(base) && Identified(local) && Identified(remote) && MergesDocuments(base, local, remote, out)
    requires n in local + remote && Edits(base, n)
    ensures exists k :: 0 <= k < |out.content| && out.content[k].Shows(n)
  {
    hide NodeOf, Distinct;
    IdentifiedIsClear(base);
    IdentifiedIsClear(local);
    IdentifiedIsClear(remote);
    var side := if n in local then local else remote;
    var i :| 0 <= i < |side| && side[i] == n;
    var id := n.arxId.value;
    assert NodeOf(side, id) == Some(n);
    assert Form(NodeOf(base, id)) != Form(Some(n));
    assert ThreeWay(NodeOf(base, id), NodeOf(local, id), NodeOf(remote, id), Get(out.resolved, id));
    assert id in out.resolved && out.resolved[id].Shows(n);
    assert id in Members(out.order);
    var k :| 0 <= k < |out.order| && out.order[k] == id;
    assert out.content[k] == out.resolved[id];
  }

  lemma SameForm(base: seq<Node>, side: seq<Node>, id: string)
    requires Identified(base) && Identified(side) && AsInBase(base, side, id)
    ensures Form(NodeOf(side, id)) == Form(NodeOf(base, id))
  {
    hide NodeOf;
    IdentifiedIsClear(base);
    IdentifiedIsClear(side);
    if NodeOf(side, id).Some? {
      var n := NodeOf(side, id).value;
      var b :| b in base && b.arxId == Some(id) && b.comparable == n.comparable;
      var i :| 0 <= i < |base| && base[i] == b;
      assert NodeOf(base, id) == Some(base[i]);
    }
  }

  /** A block without an identifier is matched by its place: it is merged with the blocks that stand at the same place
    in the other documents and have none either. */
  lemma UnnamedMerge(base: seq<Node>, local: seq<Node>, remote: seq<Node>, out: Outcome, i: nat)
    requires Clear(base) && Clear(local) && Clear(remote) && MergesDocuments(base, local, remote, out)
    requires NoPlaceNames(base) && NoPlaceNames(local) && NoPlaceNames(remote)
    ensures ThreeWay(UnnamedAt(base, i), UnnamedAt(local, i), UnnamedAt(remote, i),
                     Get(out.resolved, "#" + Decimal(i)))
  {
    hide NodeOf, ThreeWay, Decimal, UnnamedAt, NoPlaceNames, Clear;
    UnnamedIs(base, i);
    UnnamedIs(local, i);
    UnnamedIs(remote, i);
  }

  lemma UnnamedIs(doc: seq<Node>, i: nat)
    requires NoPlaceNames(doc)
    ensures NodeOf(doc, "#" + Decimal(i)) == UnnamedAt(doc, i)
  {
    hide Decimal;
    var id := "#" + Decimal(i);
    forall k: nat | k < |doc| && GoesBy(doc, k, id)
      ensures k == i && !Named(doc[i])
    {
      assert doc[k] in doc;
      assert !Named(doc[k]);
      assert id[1..] == Decimal(i) && ("#" + Decimal(k))[1..] == Decimal(k);
      DecimalInjective(k, i);
    }
    if i < |doc| && !Named(doc[i]) {
      assert GoesBy(doc, i, id);
    }
  }

  /** No identifier looks like a place. */
  ghost predicate NoPlaceNames(doc: seq<Node>) {
    forall n :: n in doc && Named(n) ==> n.arxId.value[0] != '#'
  }

  ghost function UnnamedAt(doc: seq<Node>, i: nat): Option<Node> {
    if i < |doc| && !Named(doc[i]) then Some(doc[i]) else None
  }

  /** A block a side changed or added. */
  ghost predicate Changed(base: seq<Block>, side: seq<Block>, i: nat)
    requires i < |side|
  {
    side[i].id !in ById(base) || ById(base)[side[i].id].comparable != side[i].node.comparable
  }

  /** No edit is lost: every block a side changed or added is in the merged document, itself or inside a conflict, and
    its identifier stands in one place. */
  lemma EditsSurvive(base: seq<Block>, local: seq<Block>, remote: seq<Block>, out: Outcome, side: seq<Block>, i: nat)
    requires IsMerge(base, local, remote, out) && Distinct(Ids(base)) && Distinct(Ids(local)) && Distinct(Ids(remote))
    requires side == local || side == remote
    requires i < |side| && Changed(base, side, i)
    ensures exists k :: 0 <= k < |out.content| && out.content[k].Shows(side[i].node)
                        && forall l :: 0 <= l < |out.order| && out.order[l] == side[i].id ==> l == k
  {
    hide ById, Spliced, Only, Ids, ConflictIds;
    var id := side[i].id;
    ByIdFinds(side, i);
    assert Ids(side)[i] == id;
    assert ThreeWay(Get(ById(base), id), Get(ById(local), id), Get(ById(remote), id), Get(out.resolved, id));
    assert id in Members(out.order);
    var k :| 0 <= k < |out.order| && out.order[k] == id;
    assert out.content[k].Shows(side[i].node);
    OrderDistinct(base, local, remote, out);
  }

  lemma OrderDistinct(base: seq<Block>, local: seq<Block>, remote: seq<Block>, out: Outcome)
    requires IsOrder(base, local, remote, out)
    ensures Distinct(out.order)
  {
    hide Only, Ids, PlacedAt;
  }

  /** Where things stand. What survives of the base keeps the base's order. A block one side added stands after the
    block that side has it after, if that survived: right after it when remote alone added it, and with nothing but
    blocks that remote added in between when local did. */
  lemma Placement(base: seq<Block>, local: seq<Block>, remote: seq<Block>, out: Outcome, i: nat)
    requires IsMerge(base, local, remote, out) && Distinct(Ids(base)) && Distinct(Ids(local)) && Distinct(Ids(remote))
    ensures Only(out.order, Members(Ids(base))) == Only(Ids(base), out.resolved.Keys)
    ensures 0 < i < |local| && Added(base, local, out, i) ==>
      && Before(out.order, local[i - 1].id, local[i].id)
      && Adjacent(Only(out.order, Members(Ids(base)) + Members(Ids(local))), local[i - 1].id, local[i].id)
    ensures 0 < i < |remote| && Added(base, remote, out, i) && remote[i].id !in Ids(local) ==>
      Adjacent(out.order, remote[i - 1].id, remote[i].id)
  {
    hide ById, Only, Ids, Distinct, Adjacent, Before, AllResolved, ConflictIds;
    var kept := out.resolved.Keys;
    var known := Members(Ids(base)) + Members(Ids(local));
    var survivors := Only(Ids(base), kept);
    var mine := Only(out.order, known);
    OnlyTwice(out.order, known, Members(survivors));
    OnlySame(out.order, Members(Ids(base)), Members(survivors));
    if 0 < i < |local| && Added(base, local, out, i) {
      assert Ids(local)[i] == local[i].id && Ids(local)[i - 1] == local[i - 1].id;
      assert PlacedAt(survivors, mine, Ids(local), kept, i);
      AdjacentBefore(mine, local[i - 1].id, local[i].id);
      OnlyBefore(out.order, known, local[i - 1].id, local[i].id);
    }
    if 0 < i < |remote| && Added(base, remote, out, i) && remote[i].id !in Ids(local) {
      assert Ids(remote)[i] == remote[i].id && Ids(remote)[i - 1] == remote[i - 1].id;
      assert PlacedAt(mine, out.order, Ids(remote), kept, i);
    }
  }

  /** A block a side has and the base has not, kept together with the block before it. */
  ghost predicate Added(base: seq<Block>, side: seq<Block>, out: Outcome, i: nat)
    requires 0 < i < |side|
  {
    side[i].id !in Ids(base) && side[i].id in out.resolved && side[i - 1].id in out.resolved
  }

  lemma AdjacentBefore(s: seq<string>, x: string, y: string)
    requires Adjacent(s, x, y)
    ensures Before(s, x, y)
  {
  }

  /** The same blocks in the same order, up to what blocks are compared by. */
  ghost predicate Same(one: seq<Block>, other: seq<Block>) {
    |one| == |other| && forall i :: 0 <= i < |one| ==>
      one[i].id == other[i].id && one[i].node.comparable == other[i].node.comparable
  }

  lemma {:induction false} SameForms(one: seq<Block>, other: seq<Block>, id: string)
    requires Same(one, other)
    ensures Form(Get(ById(one), id)) == Form(Get(ById(other), id))
    decreases |one|
  {
    if one != [] {
      SameForms(one[..|one| - 1], other[..|other| - 1], id);
    }
  }

  /** When one side is the base, there is no conflict and the other side comes out as it is: the same identifiers, each
    block equal to that side's, and in that side's order whenever it kept the base's order of the blocks they share. */
  lemma QuietSide(base: seq<Block>, local: seq<Block>, remote: seq<Block>, out: Outcome, quiet: seq<Block>,
                  side: seq<Block>)
    requires IsMerge(base, local, remote, out) && Distinct(Ids(base)) && Distinct(Ids(local)) && Distinct(Ids(remote))
    requires (quiet == local && side == remote) || (quiet == remote && side == local)
    requires Same(base, quiet)
    ensures out.conflicts == 0 && out.resolved.Keys == Members(Ids(side))
    ensures forall i :: 0 <= i < |side| ==> side[i].id in out.resolved && out.resolved[side[i].id].Kept?
                                            && out.resolved[side[i].id].Shows(side[i].node)
    ensures Only(Ids(side), Members(Ids(base))) == Only(Ids(base), Members(Ids(side))) ==> out.order == Ids(side)
  {
    hide ById, Spliced, Only, Ids, Distinct, IsOrder;
    forall id
      ensures Shown(Get(out.resolved, id)) == Form(Get(ById(side), id))
      ensures id in out.resolved ==> out.resolved[id].Kept?
      ensures id in out.resolved <==> id in Ids(side)
    {
      SameForms(base, quiet, id);
      assert ThreeWay(Get(ById(base), id), Get(ById(local), id), Get(ById(remote), id), Get(out.resolved, id));
    }
    assert ConflictIds(out.resolved) == {};
    forall i | 0 <= i < |side|
      ensures side[i].id in out.resolved && out.resolved[side[i].id].Kept?
        && out.resolved[side[i].id].Shows(side[i].node)
    {
      assert Ids(side)[i] == side[i].id;
      ByIdFinds(side, i);
      assert Shown(Get(out.resolved, side[i].id)) == Form(Get(ById(side), side[i].id));
    }
    assert Ids(base) == Ids(quiet);
    if Only(Ids(side), Members(Ids(base))) == Only(Ids(base), Members(Ids(side))) {
      QuietOrder(base, local, remote, out, quiet, side);
    }
  }

  lemma NothingSpliced(was: seq<string>, now: seq<string>, ids: seq<string>, kept: set<string>)
    requires Spliced(was, now, ids, kept) && forall x :: x in ids && x in kept ==> x in was
    ensures now == was
  {
    hide Only, PlacedAt, Distinct;
    OnlyAll(now, Members(was));
  }

  lemma QuietOrder(base: seq<Block>, local: seq<Block>, remote: seq<Block>, out: Outcome, quiet: seq<Block>,
                   side: seq<Block>)
    requires IsOrder(base, local, remote, out) && Distinct(Ids(side)) && out.resolved.Keys == Members(Ids(side))
    requires (quiet == local && side == remote) || (quiet == remote && side == local)
    requires Ids(base) == Ids(quiet) && Only(Ids(side), Members(Ids(base))) == Only(Ids(base), Members(Ids(side)))
    ensures out.order == Ids(side)
  {
    hide Only, Ids, PlacedAt, Distinct, Spliced;
    var kept := out.resolved.Keys;
    var survivors := Only(Ids(base), kept);
    var mine := Only(out.order, Members(Ids(base)) + Members(Ids(local)));
    if side == remote {
      NothingSpliced(survivors, mine, Ids(local), kept);
    } else {
      assert Members(mine) == kept by {
        assert forall x :: x in kept ==> x in out.order;
      }
      NothingSpliced(mine, out.order, Ids(remote), kept);
    }
    OnlySame(Ids(side), Members(Ids(base)), Members(survivors));
    assert Whole(survivors, out.order, Ids(side));
    SplicedIsWhole(survivors, out.order, Ids(side));
  }
}
