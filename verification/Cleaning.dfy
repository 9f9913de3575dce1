/**
 Outputs laid first, cleanup after: exactly when the whole is accepted, and what
 it leaves.
 */
module Cleaning {
  import opened Results
  import opened Paths
  import opened Sorting
  import opened Identity
  import opened Plans
  import opened Rollback
  import opened Targets
  import opened Inversion
  import opened Apply
  import opened Agreement
  import opened Outputs
  import opened Trees
  import opened Grouping
  import opened Overlays
  import opened Maintenance
  import opened Layouts

  /** `effective` are the declared paths no output replaces; `inventory` deletes the inventory file, if cleanup runs. */
  datatype Sweep = Sweep(effective: seq<Path>, deletes: seq<Operation>, removes: seq<Operation>, inventory: seq<Operation>)

  ghost predicate Swept(s: Sweep, ob: Observed) {
    && Gathered(s.effective, ob, s.deletes, s.removes) && DeepestFirst(s.removes)
    && (forall i :: 0 <= i < |s.effective| ==> Seen(ob, s.effective[i]) && s.effective[i] != INVENTORY)
    && (s.inventory == [] || (INVENTORY in ob.states && s.inventory == [DeleteFile(INVENTORY, ob.states[INVENTORY])]))
    && (s.inventory == [] ==> s.effective == [])
  }

  function SweepOperations(s: Sweep): seq<Operation> {
    s.deletes + s.removes + s.inventory
  }

  /** Every output has its operation, and no declared path is itself an output. */
  ghost predicate Complete(l: Layout, s: Sweep, ob: Observed, store: Store) {
    && Placed(l, ob, store)
    && (forall i :: 0 <= i < |l.outputs| ==> Effected(l, ob, l.outputs[i].path) && l.outputs[i].path !in ob.directoryStates)
    && (forall i, k :: 0 <= i < |l.outputs| && 0 <= k < |s.effective| ==> s.effective[k] != l.outputs[i].path)
  }

  /** When a sweep leaves the outputs and the inventory operation alone. */
  ghost predicate Fits(l: Layout, s: Sweep) {
    && NoDuplicates(s.effective)
    && (forall i, k :: 0 <= i < |l.outputs| && 0 <= k < |s.effective| ==> !Above(s.effective[k], l.outputs[i].path))
    && (s.inventory != [] ==>
          && (forall k :: 0 <= k < |s.effective| ==> !Above(s.effective[k], INVENTORY))
          && (forall i :: 0 <= i < |l.outputs| ==> l.outputs[i].path != INVENTORY))
  }

  predicate Gone(s: Sweep, ob: Observed, p: Path) {
    Taken(s.effective, ob, p) || (s.inventory != [] && p == INVENTORY)
  }

  // Accepted if it fits

  /** An observed path is neither written nor newly created, unless it is an output. */
  lemma ObservedIsNotNew(l: Layout, ob: Observed, store: Store, p: Path)
    requires ClosedView(ob) && Placed(l, ob, store) && Seen(ob, p)
    ensures !NewlyAbove(l, ob, p)
    ensures Effected(l, ob, p) ==> exists i :: 0 <= i < |l.outputs| && l.outputs[i].path == p
  {
    forall i | 0 <= i < |l.outputs| ensures p in ob.states && p != [] ==> !Above(p, l.outputs[i].path) {
      assert !Blocked(l.outputs[i].path, ob.states.Keys);
    }
    if IsPlaced(l, p) {
      var i :| 0 <= i < |l.placed| && l.placed[i].path == p;
      assert PlacedAt(l, ob, store, i);
    }
  }

  lemma TakenIsNoOutput(l: Layout, s: Sweep, ob: Observed, store: Store, p: Path)
    requires Complete(l, s, ob, store) && Fits(l, s) && Taken(s.effective, ob, p)
    ensures forall i :: 0 <= i < |l.outputs| ==> l.outputs[i].path != p
  {
    var k :| 0 <= k < |s.effective| && Takes(s.effective[k], ob, p);
    assert forall i :: 0 <= i < |l.outputs| ==>
      s.effective[k] != l.outputs[i].path && !Above(s.effective[k], l.outputs[i].path);
  }

  lemma DeletionIsReady(l: Layout, s: Sweep, ob: Observed, store: Store, o: Overlay, u: Overlay, i: nat)
    requires Base(ob, ob, o) && Complete(l, s, ob, store) && Fits(l, s) && Swept(s, ob)
    requires o.written == {} && Installed(l, ob, store, o, u) && i < |s.deletes|
    ensures DeleteReady(s.deletes[i], ob, u)
  {
    var op := s.deletes[i];
    assert op in s.deletes;
    TakenIsNoOutput(l, s, ob, store, op.path);
    ObservedIsNotNew(l, ob, store, op.path);
  }

  lemma DirectoryIsNoOutput(l: Layout, s: Sweep, ob: Observed, store: Store, p: Path)
    requires ClosedView(ob) && Complete(l, s, ob, store) && p in ob.directoryStates
    ensures !Effected(l, ob, p) && !NewlyAbove(l, ob, p)
  {
    ObservedIsNotNew(l, ob, store, p);
  }

  lemma RemovalIsListed(l: Layout, s: Sweep, ob: Observed, store: Store, o: Overlay, u: Overlay, i: nat)
    requires Base(ob, ob, o) && Complete(l, s, ob, store) && Swept(s, ob)
    requires o.written == {} && Installed(l, ob, store, o, u) && i < |s.removes|
    requires forall p :: p in ob.directoryStates ==> o.directories[p] == ob.directoryStates[p].rootMode
    ensures RemovalListed(s.removes[i], Overlay(u.files - OpPaths(s.deletes), u.directories, u.written + OpPaths(s.deletes)))
  {
    var op := s.removes[i];
    assert op in s.removes;
    DirectoryIsNoOutput(l, s, ob, store, op.path);
    DeletedAt(s, ob, op.path);
  }

  /** What is taken along with a removed directory. */
  lemma TakenBelow(s: Sweep, ob: Observed, i: nat, q: Path) returns (k: nat)
    requires ClosedView(ob) && Swept(s, ob) && i < |s.removes| && Above(s.removes[i].path, q)
    ensures k < |s.effective| && s.effective[k] in ob.directoryStates && Above(s.effective[k], q)
    ensures Takes(s.effective[k], ob, q)
  {
    var op := s.removes[i];
    assert op in s.removes;
    k :| 0 <= k < |s.effective| && Takes(s.effective[k], ob, op.path);
    AboveTransitive(s.effective[k], op.path, q);
    assert Seen(ob, s.effective[k]);
  }

  lemma DeletedAt(s: Sweep, ob: Observed, p: Path)
    requires Swept(s, ob)
    ensures p in OpPaths(s.deletes) <==> p in ob.states && Taken(s.effective, ob, p)
    ensures p in OpPaths(s.removes) <==> p in ob.directoryStates && Taken(s.effective, ob, p)
  {
    if p in OpPaths(s.deletes) {
      var i :| 0 <= i < |s.deletes| && s.deletes[i].path == p;
      assert s.deletes[i] in s.deletes;
    }
    if p in ob.states && Taken(s.effective, ob, p) {
      assert DeleteFile(p, ob.states[p]) in s.deletes;
    }
    if p in OpPaths(s.removes) {
      var i :| 0 <= i < |s.removes| && s.removes[i].path == p;
      assert s.removes[i] in s.removes;
    }
    if p in ob.directoryStates && Taken(s.effective, ob, p) {
      assert RemoveEmptyDirectory(p, DirectoryState(ob.directoryStates[p].rootMode, [])) in s.removes;
    }
  }

  lemma SweptClean(l: Layout, s: Sweep, ob: Observed, store: Store, o: Overlay, u: Overlay)
    requires Base(ob, ob, o) && Complete(l, s, ob, store) && Fits(l, s) && Swept(s, ob)
    requires Installed(l, ob, store, o, u)
    ensures OnlyRemovedBelow(s.removes, Overlay(u.files - OpPaths(s.deletes), u.directories, u.written + OpPaths(s.deletes)))
  {
    forall i, q | 0 <= i < |s.removes| && q in u.files && q !in OpPaths(s.deletes) ensures !Above(s.removes[i].path, q) {
      if Above(s.removes[i].path, q) { FileBelowIsGone(l, s, ob, store, i, q); }
    }
    forall i, q | 0 <= i < |s.removes| && q in u.directories && Above(s.removes[i].path, q) ensures q in OpPaths(s.removes) {
      var k := TakenBelow(s, ob, i, q);
      if NewlyAbove(l, ob, q) {
        var j :| 0 <= j < |l.outputs| && Above(q, l.outputs[j].path);
        AboveTransitive(s.effective[k], q, l.outputs[j].path);
      }
      DeletedAt(s, ob, q);
    }
  }

  /** A file below a removed directory was observed, and is deleted: no output is there. */
  lemma FileBelowIsGone(l: Layout, s: Sweep, ob: Observed, store: Store, i: nat, q: Path)
    requires ClosedView(ob) && Complete(l, s, ob, store) && Fits(l, s) && Swept(s, ob)
    requires i < |s.removes| && Above(s.removes[i].path, q)
    ensures !Effected(l, ob, q)
    ensures q in ob.states ==> q in OpPaths(s.deletes)
  {
    var k := TakenBelow(s, ob, i, q);
    DeletedAt(s, ob, q);
    TakenIsNoOutput(l, s, ob, store, q);
    forall n | 0 <= n < |l.placed| ensures l.placed[n].path != q { assert PlacedAt(l, ob, store, n); }
  }

  lemma InventoryIsReady(l: Layout, s: Sweep, ob: Observed, store: Store, o: Overlay, u: Overlay)
    requires Base(ob, ob, o) && Complete(l, s, ob, store) && Fits(l, s) && Swept(s, ob) && s.inventory != []
    requires o.written == {} && Installed(l, ob, store, o, u)
    ensures DeleteReady(s.inventory[0], ob, Overlay(u.files - OpPaths(s.deletes), u.directories - OpPaths(s.removes),
      u.written + OpPaths(s.deletes) + OpPaths(s.removes)))
  {
    ObservedIsNotNew(l, ob, store, INVENTORY);
    DeletedAt(s, ob, INVENTORY);
    assert forall k :: 0 <= k < |s.effective| ==> !Takes(s.effective[k], ob, INVENTORY);
  }

  /** The overlay once the sweep has run over `u`. */
  ghost function SweptOverlay(s: Sweep, u: Overlay): Overlay {
    Overlay(u.files - OpPaths(s.deletes) - OpPaths(s.inventory), u.directories - OpPaths(s.removes),
            u.written + OpPaths(s.deletes) + OpPaths(s.removes) + OpPaths(s.inventory))
  }

  lemma InventoryAccepted(s: Sweep, ob: Observed, store: Store, v: Overlay)
    requires Swept(s, ob) && (s.inventory != [] ==> DeleteReady(s.inventory[0], ob, v))
    ensures OverlayAll(s.inventory, ob, store, v)
      == Ok(Overlay(v.files - OpPaths(s.inventory), v.directories, v.written + OpPaths(s.inventory)))
  {
    DeletesAccepted(s.inventory, ob, store, v);
  }

  lemma SweepAccepted(l: Layout, s: Sweep, ob: Observed, store: Store, o: Overlay, u: Overlay)
    requires Base(ob, ob, o) && Complete(l, s, ob, store) && Fits(l, s) && Swept(s, ob)
    requires o.written == {} && Installed(l, ob, store, o, u)
    requires forall p :: p in ob.directoryStates ==> o.directories[p] == ob.directoryStates[p].rootMode
    ensures OverlayAll(SweepOperations(s), ob, store, u) == Ok(SweptOverlay(s, u))
  {
    forall i | 0 <= i < |s.deletes| ensures DeleteReady(s.deletes[i], ob, u) {
      DeletionIsReady(l, s, ob, store, o, u, i);
    }
    DeletesAccepted(s.deletes, ob, store, u);
    var v := Overlay(u.files - OpPaths(s.deletes), u.directories, u.written + OpPaths(s.deletes));
    forall i | 0 <= i < |s.removes| ensures RemovalListed(s.removes[i], v) {
      RemovalIsListed(l, s, ob, store, o, u, i);
    }
    SweptClean(l, s, ob, store, o, u);
    RemovalsAccepted(s.removes, ob, store, v);
    var w := Overlay(v.files, v.directories - OpPaths(s.removes), v.written + OpPaths(s.removes));
    if s.inventory != [] { InventoryIsReady(l, s, ob, store, o, u); }
    InventoryAccepted(s, ob, store, w);
    OverlayConcat(s.deletes, s.removes, ob, store, u);
    OverlayConcat(s.deletes + s.removes, s.inventory, ob, store, u);
  }

  // Accepted only if it fits

  lemma AcceptedAreDistinct(ops: seq<Operation>, ob: Observed, store: Store, o: Overlay)
    requires OverlayAll(ops, ob, store, o).Ok?
    ensures Distinct(ops)
  {
    forall i, j | 0 <= i < j < |ops| ensures ops[i].path != ops[j].path { AcceptedApart(ops, ob, store, o, i, j); }
  }

  lemma {:induction false} EntriesKeep(es: seq<PlannedEntry>, store: Store, t: ExpectedTarget, q: Path)
    requires OverlayEntries(es, store, t).Ok? && q in t.files
    ensures q in OverlayEntries(es, store, t).value.files
    decreases |es|
  {
    if es != [] { EntriesKeep(es[..|es| - 1], store, t, q); }
  }

  /** A written file stays, so no directory above it can be removed later. */
  lemma {:induction false} WrittenFileStays(ops: seq<Operation>, ob: Observed, store: Store, o: Overlay, q: Path)
    requires OverlayAll(ops, ob, store, o).Ok? && q in o.written && q in o.files
    ensures forall op :: op in ops && op.RemoveEmptyDirectory? ==> !Above(op.path, q)
    decreases |ops|
  {
    if ops != [] {
      var u := OverlayStep(ops[0], ob, store, o).value;
      if ops[0].CreateTree? {
        EntriesKeep(ops[0].tree.entries, store,
          ExpectedTarget(o.files, o.directories[ops[0].path := ops[0].tree.rootMode]), q);
      }
      assert q in u.files && q in u.written;
      WrittenFileStays(ops[1..], ob, store, u, q);
      assert forall op :: op in ops ==> op == ops[0] || op in ops[1..];
    }
  }

  lemma DistinctParts(a: seq<Operation>, b: seq<Operation>)
    requires Distinct(a + b)
    ensures Distinct(a) && Distinct(b)
    ensures forall x, y :: x in a && y in b ==> x.path != y.path
  {
    forall i, j | 0 <= i < j < |a| ensures a[i].path != a[j].path { assert (a + b)[i] == a[i] && (a + b)[j] == a[j]; }
    forall i, j | 0 <= i < j < |b| ensures b[i].path != b[j].path {
      assert (a + b)[|a| + i] == b[i] && (a + b)[|a| + j] == b[j];
    }
    forall x, y | x in a && y in b ensures x.path != y.path {
      var i :| 0 <= i < |a| && a[i] == x;
      var j :| 0 <= j < |b| && b[j] == y;
      assert (a + b)[i] == x && (a + b)[|a| + j] == y;
    }
  }

  lemma SweepIsFlat(s: Sweep, ob: Observed)
    requires Swept(s, ob) && Distinct(SweepOperations(s))
    ensures NoDuplicates(s.effective)
    ensures s.inventory != [] ==> forall k :: 0 <= k < |s.effective| ==> !Takes(s.effective[k], ob, INVENTORY)
  {
    DistinctParts(s.deletes + s.removes, s.inventory);
    DistinctParts(s.deletes, s.removes);
    if s.inventory != [] {
      var last := DeleteFile(INVENTORY, ob.states[INVENTORY]);
      assert last in s.inventory;
      assert last in s.deletes ==> last in s.deletes + s.removes;
      forall k | 0 <= k < |s.effective| ensures !Takes(s.effective[k], ob, INVENTORY) {
        assert Takes(s.effective[k], ob, INVENTORY) ==> Taken(s.effective, ob, INVENTORY);
      }
    }
  }

  /** A declared directory is removed by the sweep. */
  lemma DeclaredIsRemoved(s: Sweep, ob: Observed, k: nat)
    requires Swept(s, ob) && k < |s.effective| && s.effective[k] in ob.directoryStates
    ensures exists op :: op in SweepOperations(s) && op.RemoveEmptyDirectory? && op.path == s.effective[k]
  {
    var c := s.effective[k];
    var op := RemoveEmptyDirectory(c, DirectoryState(ob.directoryStates[c].rootMode, []));
    assert Takes(s.effective[k], ob, c);
    assert op in s.removes;
    assert op in SweepOperations(s);
  }

  lemma SweptApart(l: Layout, s: Sweep, ob: Observed, store: Store, o: Overlay, u: Overlay, i: nat, k: nat)
    requires Base(ob, ob, o) && Complete(l, s, ob, store) && Swept(s, ob) && Installed(l, ob, store, o, u)
    requires OverlayAll(SweepOperations(s), ob, store, u).Ok? && i < |l.outputs| && k < |s.effective|
    ensures !Above(s.effective[k], l.outputs[i].path)
  {
    var c, q := s.effective[k], l.outputs[i].path;
    assert Effected(l, ob, q);
    assert IsAsPlanned(l.outputs[i], store, u.files);
    assert Seen(ob, c) && !Blocked(q, ob.states.Keys);
    WrittenFileStays(SweepOperations(s), ob, store, u, q);
    if c in ob.directoryStates { DeclaredIsRemoved(s, ob, k); }
  }

  lemma InventoryIsNoOutput(l: Layout, s: Sweep, ob: Observed, store: Store, o: Overlay, u: Overlay, i: nat)
    requires Base(ob, ob, o) && Complete(l, s, ob, store) && Swept(s, ob) && Installed(l, ob, store, o, u)
    requires OverlayAll(SweepOperations(s), ob, store, u).Ok? && s.inventory != [] && i < |l.outputs|
    ensures l.outputs[i].path != INVENTORY
  {
    assert Effected(l, ob, l.outputs[i].path);
    assert s.inventory[0] in SweepOperations(s);
    if l.outputs[i].path == INVENTORY { WrittenGrows(SweepOperations(s), ob, store, u, INVENTORY); }
  }

  lemma AcceptedSweepFits(l: Layout, s: Sweep, ob: Observed, store: Store, o: Overlay, u: Overlay)
    requires Base(ob, ob, o) && Complete(l, s, ob, store) && Swept(s, ob) && Installed(l, ob, store, o, u)
    requires OverlayAll(SweepOperations(s), ob, store, u).Ok?
    ensures Fits(l, s)
  {
    AcceptedAreDistinct(SweepOperations(s), ob, store, u);
    SweepIsFlat(s, ob);
    forall i, k | 0 <= i < |l.outputs| && 0 <= k < |s.effective| ensures !Above(s.effective[k], l.outputs[i].path) {
      SweptApart(l, s, ob, store, o, u, i, k);
    }
    if s.inventory != [] {
      forall i | 0 <= i < |l.outputs| ensures l.outputs[i].path != INVENTORY {
        InventoryIsNoOutput(l, s, ob, store, o, u, i);
      }
      forall k | 0 <= k < |s.effective| ensures !Above(s.effective[k], INVENTORY) {
        InventoryStandsClear(s, ob, k);
      }
    }
  }

  /** A sweep over the laid outputs is accepted exactly when it fits. */
  lemma SweepAcceptedIfFits(l: Layout, s: Sweep, ob: Observed, store: Store, o: Overlay, u: Overlay)
    requires Base(ob, ob, o) && Complete(l, s, ob, store) && Swept(s, ob)
    requires o.written == {} && Installed(l, ob, store, o, u)
    requires forall p :: p in ob.directoryStates ==> o.directories[p] == ob.directoryStates[p].rootMode
    ensures OverlayAll(SweepOperations(s), ob, store, u).Ok? <==> Fits(l, s)
    ensures Fits(l, s) ==> OverlayAll(SweepOperations(s), ob, store, u).value == SweptOverlay(s, u)
  {
    if OverlayAll(SweepOperations(s), ob, store, u).Ok? { AcceptedSweepFits(l, s, ob, store, o, u); }
    if Fits(l, s) { SweepAccepted(l, s, ob, store, o, u); }
  }

  lemma InventoryStandsClear(s: Sweep, ob: Observed, k: nat)
    requires ClosedView(ob) && Swept(s, ob) && s.inventory != [] && k < |s.effective|
    requires !Takes(s.effective[k], ob, INVENTORY)
    ensures !Above(s.effective[k], INVENTORY)
  {
    if Above(s.effective[k], INVENTORY) {
      assert Seen(ob, s.effective[k]) && Seen(ob, INVENTORY);
      SeenAncestors(ob, s.effective[k], INVENTORY);
    }
  }

  // What is left

  predicate IsOutput(l: Layout, p: Path) {
    exists i :: 0 <= i < |l.outputs| && l.outputs[i].path == p
  }

  /** The observed target without what is gone, with every output at its bytes and mode. */
  ghost predicate Overlaid(r: ExpectedTarget, start: Overlay, l: Layout, s: Sweep, ob: Observed, store: Store) {
    && (forall p :: p in r.files <==> IsOutput(l, p) || (p in start.files && !Gone(s, ob, p)))
    && (forall i :: 0 <= i < |l.outputs| ==> IsAsPlanned(l.outputs[i], store, r.files))
    && (forall p :: p in r.files && !IsOutput(l, p) ==> r.files[p] == start.files[p])
    && (forall p :: p in r.directories <==> NewlyAbove(l, ob, p) || (p in start.directories && !Gone(s, ob, p)))
    && (forall p :: p in r.directories ==>
          r.directories[p] == if p in start.directories then start.directories[p] else DIRECTORY_MODE)
  }

  lemma OutputsAreEffected(l: Layout, s: Sweep, ob: Observed, store: Store, p: Path)
    requires Complete(l, s, ob, store)
    ensures Effected(l, ob, p) <==> IsOutput(l, p)
  {
    if IsPlaced(l, p) {
      var n :| 0 <= n < |l.placed| && l.placed[n].path == p;
      assert PlacedAt(l, ob, store, n);
    }
  }

  lemma SweptFileAt(l: Layout, s: Sweep, ob: Observed, store: Store, o: Overlay, u: Overlay, p: Path)
    requires Base(ob, ob, o) && Complete(l, s, ob, store) && Fits(l, s) && Swept(s, ob) && Installed(l, ob, store, o, u)
    ensures var r := SweptOverlay(s, u);
      && (p in r.files <==> IsOutput(l, p) || (p in o.files && !Gone(s, ob, p)))
      && (p in r.files && !IsOutput(l, p) ==> r.files[p] == o.files[p])
  {
    OutputsAreEffected(l, s, ob, store, p);
    DeletedAt(s, ob, p);
    if Taken(s.effective, ob, p) { TakenIsNoOutput(l, s, ob, store, p); }
    assert p in OpPaths(s.inventory) <==> s.inventory != [] && p == INVENTORY by {
      if s.inventory != [] { assert s.inventory[0].path == INVENTORY; }
    }
  }

  lemma SweptDirectoryAt(l: Layout, s: Sweep, ob: Observed, store: Store, o: Overlay, u: Overlay, p: Path)
    requires Base(ob, ob, o) && Complete(l, s, ob, store) && Swept(s, ob) && Installed(l, ob, store, o, u)
    ensures var r := SweptOverlay(s, u);
      && (p in r.directories <==> NewlyAbove(l, ob, p) || (p in o.directories && !Gone(s, ob, p)))
      && (p in r.directories ==>
            r.directories[p] == if p in o.directories then o.directories[p] else DIRECTORY_MODE)
  {
    DeletedAt(s, ob, p);
    if Seen(ob, p) { ObservedIsNotNew(l, ob, store, p); }
  }

  lemma SweptIsOverlaid(l: Layout, s: Sweep, ob: Observed, store: Store, o: Overlay, u: Overlay)
    requires Base(ob, ob, o) && Complete(l, s, ob, store) && Fits(l, s) && Swept(s, ob) && Installed(l, ob, store, o, u)
    ensures var v := SweptOverlay(s, u);
      Overlaid(ExpectedTarget(v.files, v.directories), o, l, s, ob, store)
  {
    var v := SweptOverlay(s, u);
    forall p
      ensures p in v.files <==> IsOutput(l, p) || (p in o.files && !Gone(s, ob, p))
      ensures p in v.files && !IsOutput(l, p) ==> v.files[p] == o.files[p]
      ensures p in v.directories <==> NewlyAbove(l, ob, p) || (p in o.directories && !Gone(s, ob, p))
      ensures p in v.directories ==> v.directories[p] == if p in o.directories then o.directories[p] else DIRECTORY_MODE
    {
      SweptFileAt(l, s, ob, store, o, u, p);
      SweptDirectoryAt(l, s, ob, store, o, u, p);
    }
    forall i | 0 <= i < |l.outputs| ensures IsAsPlanned(l.outputs[i], store, v.files) {
      assert Effected(l, ob, l.outputs[i].path);
      assert IsAsPlanned(l.outputs[i], store, u.files);
      assert IsOutput(l, l.outputs[i].path);
      assert l.outputs[i].path in v.files;
    }
  }

  lemma StartIsBase(snapshot: Snapshot, t: Tree)
    requires Closed(t) && Observes(snapshot, t)
    ensures var ob, o := ObservedOf(snapshot), StartOverlay(snapshot);
      && Base(ob, ob, o) && o.written == {}
      && (forall p :: p in ob.directoryStates ==> o.directories[p] == ob.directoryStates[p].rootMode)
  {
    ObservedIsClosed(ObservedOf(snapshot), t);
    ExpectedFilesOf(snapshot.files);
    RootModesOf(snapshot.directories);
  }

  lemma CompleteIsUnspent(l: Layout, s: Sweep, ob: Observed, store: Store, o: Overlay)
    requires Complete(l, s, ob, store) && o.written == {}
    ensures Unspent(l, ob, ob, o)
  {
    forall i | 0 <= i < |l.placed| ensures Spare(ob, ob, o, l.placed[i].path) && l.placed[i].path !in ob.directoryStates {
      assert PlacedAt(l, ob, store, i);
    }
  }

  /**
   A plan that lays outputs and then sweeps is accepted exactly when the sweep fits,
   and then means the overlay: the observed target minus what is gone, plus the
   outputs and the directories they need.
   */
  lemma LaidPlanMeansOverlay(snapshot: Snapshot, plan: Plan, t: Tree, l: Layout, s: Sweep)
    requires Closed(t) && Observes(snapshot, t)
    requires plan.operations == l.plain + l.trees + SweepOperations(s)
    requires Complete(l, s, ObservedOf(snapshot), plan.store) && Swept(s, ObservedOf(snapshot))
    ensures Applied(snapshot, plan).Ok? <==> Fits(l, s)
    ensures Fits(l, s) ==>
      Overlaid(Applied(snapshot, plan).value, StartOverlay(snapshot), l, s, ObservedOf(snapshot), plan.store)
  {
    var ob, o := ObservedOf(snapshot), StartOverlay(snapshot);
    StartIsBase(snapshot, t);
    CompleteIsUnspent(l, s, ob, plan.store, o);
    LayoutAccepted(l, ob, ob, plan.store, o);
    var u := OverlayAll(l.plain + l.trees, ob, plan.store, o).value;
    SweepAcceptedIfFits(l, s, ob, plan.store, o, u);
    OverlayConcat(l.plain + l.trees, SweepOperations(s), ob, plan.store, o);
    if Fits(l, s) { SweptIsOverlaid(l, s, ob, plan.store, o, u); }
  }
}
