/**
  The document index of the RAG engine as the indexing job sees it through rag_client.py.

  An index maps document ids to documents.  Every call may fail, and a failed call may have
  stored any prefix of what it was given, so the whole environment of a run is a script of
  replies numbered by call.
 */
module RagStore {
  import opened Options

  type DocId = nat

  datatype Doc = Doc(path: string, text: string, change: string)

  /** A document that replaces the one stored under an existing id. */
  datatype Update = Update(id: DocId, doc: Doc)

  datatype Reply = Ok | Fail(applied: nat)

  /** `reply` answers the n-th call; `pick` is how the engine chooses one of several matches.
      `canDelete` says whether the client object has the method delete_document that the git handler
      calls; KAITORAGClient has delete_documents only, and there the call raises before it is sent. */
  datatype Engine = Engine(reply: nat -> Reply, pick: set<DocId> -> DocId, canDelete: bool) {
    ghost predicate Valid() {
      forall ids :: ids != {} ==> pick(ids) in ids
    }
  }

  /** The stored documents, the next fresh id, and the number of calls made so far. */
  datatype World = World(docs: map<DocId, Doc>, next: DocId, calls: nat) {
    ghost predicate Valid() {
      forall id :: id in docs ==> id < next
    }
  }

  /** How many of n submitted entries a call with this reply stored. */
  function Stored(r: Reply, n: nat): (k: nat)
    ensures k <= n
    ensures r.Ok? ==> k == n
  {
    if r.Ok? || n <= r.applied then n else r.applied
  }

  /** A failed call may have stored any number of its entries, all and none among them; an answered one all. */
  lemma AnyPrefixMayBeStored(n: nat, k: nat)
    requires k <= n
    ensures exists r: Reply :: r.Fail? && Stored(r, n) == k
    ensures Stored(Ok, n) == n
  {
    assert Stored(Fail(k), n) == k;
  }

  /** The n ids from `next` on. */
  function Ids(next: DocId, n: nat): (ids: set<DocId>)
    ensures forall id :: id in ids <==> next <= id < next + n
  {
    if n == 0 then {} else Ids(next, n - 1) + {next + n - 1}
  }

  /** Consecutive documents under consecutive fresh ids. */
  function Fresh(next: DocId, docs: seq<Doc>): map<DocId, Doc> {
    map id | id in Ids(next, |docs|) :: docs[id - next]
  }

  /** The last document that `updates` gives to `id`. */
  function Latest(updates: seq<Update>, id: DocId): Option<Doc> {
    if updates == [] then None
    else
      var last := updates[|updates| - 1];
      if last.id == id then Some(last.doc) else Latest(updates[..|updates| - 1], id)
  }

  /** Replacement by id; an unknown id changes nothing. */
  function Overwrite(docs: map<DocId, Doc>, updates: seq<Update>): map<DocId, Doc> {
    map id | id in docs ::
      var latest := Latest(updates, id);
      if latest.Some? then latest.value else docs[id]
  }

  /** The ids a metadata filter on file_path selects. */
  function Matching(docs: map<DocId, Doc>, path: string): set<DocId> {
    set id | id in docs && docs[id].path == path
  }

  function IndexDocuments(e: Engine, w: World, docs: seq<Doc>): World {
    var n := Stored(e.reply(w.calls), |docs|);
    World(w.docs + Fresh(w.next, docs[..n]), w.next + n, w.calls + 1)
  }

  function UpdateDocuments(e: Engine, w: World, updates: seq<Update>): World {
    var n := Stored(e.reply(w.calls), |updates|);
    World(Overwrite(w.docs, updates[..n]), w.next, w.calls + 1)
  }

  function DeleteDocument(e: Engine, w: World, id: DocId): World {
    if !e.canDelete then w
    else World(if Stored(e.reply(w.calls), 1) == 1 then w.docs - {id} else w.docs, w.next, w.calls + 1)
  }

  predicate DeleteAnswered(e: Engine, call: nat) {
    e.canDelete && e.reply(call).Ok?
  }

  /** Listing reads only: it costs a call and changes no document. */
  function ListDocuments(w: World): World {
    w.(calls := w.calls + 1)
  }

  /** The one document a listing with limit 1 returns, when it is answered. */
  function Found(e: Engine, docs: map<DocId, Doc>, path: string): (r: Option<DocId>)
    ensures e.Valid() && r.Some? ==> r.value in docs && docs[r.value].path == path
    ensures r.None? <==> forall id :: id in docs ==> docs[id].path != path
  {
    var ids := Matching(docs, path);
    if ids == {} then
      assert forall id :: id in docs ==> id !in ids;
      None
    else
      assert exists id :: id in ids;
      Some(e.pick(ids))
  }

  /** The job's client object: the methods of KAITORAGClient that the handlers call. */
  class RagClient {
    const engine: Engine
    var docs: map<DocId, Doc>
    var next: DocId
    var calls: nat

    constructor (engine: Engine, w: World)
      ensures this.engine == engine && View() == w
    {
      this.engine := engine;
      docs, next, calls := w.docs, w.next, w.calls;
    }

    function View(): World
      reads this
    {
      World(docs, next, calls)
    }

    method Index(batch: seq<Doc>) returns (ok: bool)
      modifies this
      ensures View() == IndexDocuments(engine, old(View()), batch)
      ensures ok == engine.reply(old(calls)).Ok?
    {
      var reply := engine.reply(calls);
      var n := Stored(reply, |batch|);
      docs := docs + Fresh(next, batch[..n]);
      next := next + n;
      calls := calls + 1;
      ok := reply.Ok?;
    }

    method Update(batch: seq<Update>) returns (ok: bool)
      modifies this
      ensures View() == UpdateDocuments(engine, old(View()), batch)
      ensures ok == engine.reply(old(calls)).Ok?
    {
      var reply := engine.reply(calls);
      docs := Overwrite(docs, batch[..Stored(reply, |batch|)]);
      calls := calls + 1;
      ok := reply.Ok?;
    }

    method Delete(id: DocId) returns (ok: bool)
      modifies this
      ensures View() == DeleteDocument(engine, old(View()), id)
      ensures ok == DeleteAnswered(engine, old(calls))
    {
      if !engine.canDelete {
        return false;
      }
      var reply := engine.reply(calls);
      if Stored(reply, 1) == 1 {
        docs := docs - {id};
      }
      calls := calls + 1;
      ok := reply.Ok?;
    }

    method List(path: string) returns (ok: bool, found: Option<DocId>)
      modifies this
      ensures View() == ListDocuments(old(View()))
      ensures ok == engine.reply(old(calls)).Ok?
      ensures found == if ok then Found(engine, docs, path) else None
    {
      ok := engine.reply(calls).Ok?;
      calls := calls + 1;
      found := if ok then Found(engine, docs, path) else None;
    }
  }
}
