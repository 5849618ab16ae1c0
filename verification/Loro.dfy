/**
 The document library, modelled by its causal semantics: a blob carries operations, an operation
 is applied once everything it depends on is applied and waits as pending until then, and a
 snapshot exports the applied operations only (tests/checkpoint_semantics.rs).
 */
module Loro {
  import opened Wrappers
  import opened Bytes

  datatype OpId = OpId(peer: nat, counter: nat)

  datatype BlobMode = Snapshot | Updates | ShallowSnapshot | OutdatedSnapshot | OutdatedRle

  /** What the library's encodings say: any functions that satisfy Lawful. */
  datatype Library = Library(
    deps: OpId -> set<OpId>,
    ops: seq<byte> -> Option<set<OpId>>,
    mode: seq<byte> -> Option<BlobMode>,
    snapshotOf: set<OpId> -> seq<byte>
  )

  /** An exported snapshot is a non-empty blob that decodes to the exported operations. */
  ghost predicate Lawful(lib: Library) {
    forall s: set<OpId> :: lib.snapshotOf(s) != [] && lib.ops(lib.snapshotOf(s)) == Some(s)
  }

  datatype Doc = Doc(applied: set<OpId>, pending: set<OpId>)

  const EMPTY: Doc := Doc({}, {})

  /** Applies waiting operations for as long as some waiting operation has all its dependencies. */
  function Settle(lib: Library, applied: set<OpId>, waiting: set<OpId>): Doc
    decreases waiting
  {
    var ready := set o | o in waiting && lib.deps(o) <= applied;
    if ready == {} then Doc(applied, waiting)
    else Settle(lib, applied + ready, waiting - ready)
  }

  function ImportOps(lib: Library, doc: Doc, ops: set<OpId>): Doc {
    Settle(lib, doc.applied, doc.pending + ops - doc.applied)
  }

  /** The document that holds exactly these operations. */
  function DocOf(lib: Library, ops: set<OpId>): Doc {
    Settle(lib, {}, ops)
  }

  predicate Decodable(lib: Library, blobs: seq<seq<byte>>) {
    forall i :: 0 <= i < |blobs| ==> lib.ops(blobs[i]).Some?
  }

  /** The operations carried by a blob; none if it does not decode. */
  function BlobOps(lib: Library, blob: seq<byte>): set<OpId> {
    match lib.ops(blob)
    case Some(s) => s
    case None => {}
  }

  function Ops(lib: Library, blobs: seq<seq<byte>>): set<OpId> {
    if blobs == [] then {} else BlobOps(lib, blobs[0]) + Ops(lib, blobs[1..])
  }

  function ImportBatch(lib: Library, doc: Doc, blobs: seq<seq<byte>>): Result<Doc, string> {
    if Decodable(lib, blobs) then Success(ImportOps(lib, doc, Ops(lib, blobs)))
    else Failure("import failed")
  }

  function FromSnapshot(lib: Library, blob: seq<byte>): Result<Doc, string> {
    match lib.ops(blob)
    case Some(s) => Success(DocOf(lib, s))
    case None => Failure("snapshot does not decode")
  }

  // ---------------------------------------------------------------- causal closure

  /** A set that contains `base` and every operation of `ops` whose dependencies it contains. */
  ghost predicate Closed(lib: Library, c: set<OpId>, base: set<OpId>, ops: set<OpId>) {
    base <= c && forall o :: o in ops && lib.deps(o) <= c ==> o in c
  }

  lemma {:induction false} SettleClosed(lib: Library, applied: set<OpId>, waiting: set<OpId>)
    ensures var d := Settle(lib, applied, waiting);
            && d.applied + d.pending == applied + waiting
            && Closed(lib, d.applied, applied, applied + waiting)
            && d.pending <= waiting
            && (applied !! waiting ==> d.applied !! d.pending)
    decreases waiting
  {
    var ready := set o | o in waiting && lib.deps(o) <= applied;
    if ready == {} {
      assert forall o :: o in waiting && lib.deps(o) <= applied ==> o in ready;
    } else {
      SettleClosed(lib, applied + ready, waiting - ready);
      assert applied + ready + (waiting - ready) == applied + waiting;
    }
  }

  lemma {:induction false} SettleLeast(lib: Library, applied: set<OpId>, waiting: set<OpId>, c: set<OpId>)
    requires Closed(lib, c, applied, waiting)
    ensures Settle(lib, applied, waiting).applied <= c
    decreases waiting
  {
    var ready := set o | o in waiting && lib.deps(o) <= applied;
    if ready != {} {
      SettleLeast(lib, applied + ready, waiting - ready, c);
    }
  }

  /** The applied operations are the least causally closed set; the rest are pending. */
  lemma AppliedIsCausalClosure(lib: Library, ops: set<OpId>)
    ensures var d := DocOf(lib, ops);
            && d.applied + d.pending == ops && d.applied !! d.pending
            && Closed(lib, d.applied, {}, ops)
            && forall c: set<OpId> :: Closed(lib, c, {}, ops) ==> d.applied <= c
  {
    SettleClosed(lib, {}, ops);
    assert {} + ops == ops;
    forall c: set<OpId> | Closed(lib, c, {}, ops) ensures DocOf(lib, ops).applied <= c {
      SettleLeast(lib, {}, ops, c);
    }
  }

  lemma AppliedMonotone(lib: Library, s: set<OpId>, t: set<OpId>)
    requires s <= t
    ensures DocOf(lib, s).applied <= DocOf(lib, t).applied
  {
    hide Settle;
    AppliedIsCausalClosure(lib, s);
    AppliedIsCausalClosure(lib, t);
    assert Closed(lib, DocOf(lib, t).applied, {}, s);
  }

  /** Importing into the document of s gives the document of s and the imported operations. */
  lemma ImportIsUnion(lib: Library, s: set<OpId>, t: set<OpId>)
    ensures ImportOps(lib, DocOf(lib, s), t) == DocOf(lib, s + t)
  {
    var d := DocOf(lib, s);
    var waiting := d.pending + t - d.applied;
    var r := ImportOps(lib, d, t);
    var whole := DocOf(lib, s + t);
    AppliedIsCausalClosure(lib, s);
    AppliedIsCausalClosure(lib, s + t);
    SettleClosed(lib, d.applied, waiting);
    assert d.applied + waiting == s + t;
    AppliedMonotone(lib, s, s + t);
    SettleLeast(lib, d.applied, waiting, whole.applied);
    assert Closed(lib, r.applied, {}, s + t);
    assert r.pending == (s + t) - r.applied;
  }

  /** The applied part of a document is a document of its own, with nothing pending. */
  lemma SnapshotIsComplete(lib: Library, s: set<OpId>)
    ensures DocOf(lib, DocOf(lib, s).applied) == Doc(DocOf(lib, s).applied, {})
  {
    hide Settle;
    var a := DocOf(lib, s).applied;
    AppliedIsCausalClosure(lib, s);
    AppliedIsCausalClosure(lib, a);
    assert Closed(lib, DocOf(lib, a).applied, {}, s);
  }

  lemma {:induction false} OpsAppend(lib: Library, a: seq<seq<byte>>, b: seq<seq<byte>>)
    ensures Ops(lib, a + b) == Ops(lib, a) + Ops(lib, b)
  {
    if a == [] {
      assert a + b == b;
    } else {
      assert (a + b)[1..] == a[1..] + b;
      OpsAppend(lib, a[1..], b);
    }
  }

  lemma {:induction false} OpsMembers(lib: Library, blobs: seq<seq<byte>>, o: OpId)
    ensures o in Ops(lib, blobs) <==> exists i :: 0 <= i < |blobs| && o in BlobOps(lib, blobs[i])
  {
    if blobs != [] {
      OpsMembers(lib, blobs[1..], o);
      if o in Ops(lib, blobs[1..]) {
        var i :| 0 <= i < |blobs[1..]| && o in BlobOps(lib, blobs[1..][i]);
        assert o in BlobOps(lib, blobs[i + 1]);
      }
      if exists i :: 0 <= i < |blobs| && o in BlobOps(lib, blobs[i]) {
        var i :| 0 <= i < |blobs| && o in BlobOps(lib, blobs[i]);
        if i > 0 { assert o in BlobOps(lib, blobs[1..][i - 1]); }
      }
    }
  }

  // ---------------------------------------------------------------- candidate and replay

  function Replayed(lib: Library, updates: seq<seq<byte>>): Result<Doc, string> {
    ImportBatch(lib, EMPTY, updates)
  }

  /** A document rebuilt from its own snapshot, then the retained history and the new updates. */
  function Candidate(lib: Library, doc: Doc, history: seq<seq<byte>>, updates: seq<seq<byte>>): Result<Doc, string> {
    var base :- FromSnapshot(lib, lib.snapshotOf(doc.applied));
    ImportBatch(lib, base, history + updates)
  }

  /** The document holds exactly `ops`, and `history` carries every pending one. */
  ghost predicate Represents(lib: Library, doc: Doc, history: seq<seq<byte>>, ops: set<OpId>) {
    && doc == DocOf(lib, ops)
    && Decodable(lib, history)
    && doc.pending <= Ops(lib, history) <= ops
  }

  lemma DocHolds(lib: Library, ops: set<OpId>)
    ensures DocOf(lib, ops).applied + DocOf(lib, ops).pending == ops
  {
    AppliedIsCausalClosure(lib, ops);
  }

  lemma ReplayIsDocOf(lib: Library, updates: seq<seq<byte>>)
    requires Decodable(lib, updates)
    ensures Replayed(lib, updates) == Success(DocOf(lib, Ops(lib, updates)))
  {
    assert {} + Ops(lib, updates) - {} == Ops(lib, updates);
  }

  /** The candidate holds what replaying everything committed plus the new updates would give. */
  lemma CandidateIsFullReplay(lib: Library, doc: Doc, history: seq<seq<byte>>, updates: seq<seq<byte>>, ops: set<OpId>)
    requires Lawful(lib) && Represents(lib, doc, history, ops)
    ensures Candidate(lib, doc, history, updates)
         == if Decodable(lib, updates) then Success(DocOf(lib, ops + Ops(lib, updates))) else Failure("import failed")
    ensures Decodable(lib, updates) ==>
              Represents(lib, DocOf(lib, ops + Ops(lib, updates)), history + updates, ops + Ops(lib, updates))
  {
    hide Settle;
    SnapshotIsComplete(lib, ops);
    DocHolds(lib, ops);
    OpsAppend(lib, history, updates);
    if Decodable(lib, updates) {
      ImportIsUnion(lib, doc.applied, Ops(lib, history + updates));
      var total := ops + Ops(lib, updates);
      assert doc.applied + Ops(lib, history + updates) == total;
      AppliedIsCausalClosure(lib, ops);
      AppliedIsCausalClosure(lib, total);
      AppliedMonotone(lib, ops, total);
    } else {
      var i :| 0 <= i < |updates| && lib.ops(updates[i]).None?;
      assert (history + updates)[|history| + i] == updates[i];
    }
  }
}
