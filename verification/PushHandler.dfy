/**
 The server's end of a push (packages/baresync/src/server/handlers.ts, lines 213-274): the idempotency guard around the
 repository's writes. Requests come one at a time; how they interleave is the subject of Idempotency.
 */
module PushHandler {
  import opened Wrappers
  import opened Store
  import opened SyncSpec
  import opened Repository

  // ---------------------------------------------------------------------------------------------
  // The writes of a body
  // ---------------------------------------------------------------------------------------------

  function ChangeOf(item: Item): PushChange {
    match item.payload
    case Whole(content, _, deletedAt) => PushChange(item.k.table, [PushRow(item.k.id, content, deletedAt)], [])
    case Gone => PushChange(item.k.table, [], [item.k.id])
  }

  function WriteOf(item: Item): Write {
    match item.payload
    case Whole(content, _, deletedAt) => Put(item.k, content, deletedAt)
    case Gone => Remove(item.k)
  }

  function ChangesOf(body: Body): seq<PushChange> {
    seq(|body|, i requires 0 <= i < |body| => ChangeOf(body[i]))
  }

  function ItemWrites(body: Body): seq<Write> {
    seq(|body|, i requires 0 <= i < |body| => WriteOf(body[i]))
  }

  lemma {:induction false} WritesOfItems(body: Body)
    ensures WritesOf(ChangesOf(body)) == ItemWrites(body)
  {
    if body != [] {
      var rest, item := body[..|body| - 1], body[|body| - 1];
      WritesOfItems(rest);
      var changes := ChangesOf(body);
      assert changes[..|changes| - 1] == ChangesOf(rest);
      var last := changes[|changes| - 1];
      assert Puts(last.table, last.changedRows) + Removes(last.table, last.deletedIds) == [WriteOf(item)];
    }
  }

  lemma {:induction false} AllKnown(changes: seq<PushChange>, names: seq<string>)
    requires forall c :: c in changes ==> c.table in names
    ensures KnownPrefix(changes, names) == changes
  {
    if changes != [] {
      AllKnown(changes[1..], names);
      assert changes == [changes[0]] + changes[1..];
    }
  }

  lemma KnownItems(body: Body, names: seq<string>)
    requires forall item :: item in body ==> item.k.table in names
    ensures WritesOf(KnownPrefix(ChangesOf(body), names)) == ItemWrites(body)
  {
    forall c | c in ChangesOf(body) ensures c.table in names {
      var i :| 0 <= i < |body| && c == ChangesOf(body)[i];
      assert body[i] in body;
    }
    AllKnown(ChangesOf(body), names);
    WritesOfItems(body);
  }

  // ---------------------------------------------------------------------------------------------
  // The handler
  // ---------------------------------------------------------------------------------------------

  ghost predicate DistinctItems(body: Body) {
    forall i, j :: 0 <= i < j < |body| ==> body[i].k != body[j].k
  }

  function KeysOf(body: Body): set<Key> {
    set item | item in body :: item.k
  }

  /** The server after it ran a request and took the items `taken`. */
  function AfterRun(s: Server, ids: set<nat>, body: Body, taken: Body): Server {
    Server(ApplyWrites(s.rows, ItemWrites(taken), s.clock + 1), s.clock + 1,
           s.answers[ids := Answer(body, KeysOf(taken))])
  }

  class PushEndpoint {
    const repository: SyncRepository
    /** The rows that the server would refuse. */
    const refuse: Key -> bool
    var answers: map<set<nat>, Answer>

    ghost predicate Valid()
      reads this, repository
    {
      repository.Valid()
    }

    function State(): Server
      reads this, repository
    {
      Server(repository.rows, repository.clock, answers)
    }

    constructor (repository: SyncRepository, refuse: Key -> bool)
      requires repository.Valid()
      ensures Valid() && this.repository == repository && this.refuse == refuse && answers == map[]
    {
      this.repository, this.refuse, answers := repository, refuse, map[];
    }

    /** The items that the server takes. */
    method Judge(body: Body) returns (taken: Body)
      requires DistinctItems(body)
      ensures DistinctItems(taken)
      ensures forall item :: item in taken <==> item in body && !refuse(item.k)
    {
      taken := [];
      for i := 0 to |body|
        invariant DistinctItems(taken)
        invariant forall item :: item in taken <==> item in body[..i] && !refuse(item.k)
      {
        assert forall item :: item in body[..i] ==> item.k != body[i].k;
        if !refuse(body[i].k) {
          taken := taken + [body[i]];
        }
      }
      assert body[..|body|] == body;
    }

    /**
     One request under a key: replayed if it was answered before, turned away with a 409 (None) if the answer is for
     another body, and run otherwise. The reply names the accepted rows.
     */
    method Handle(ids: set<nat>, body: Body) returns (reply: Option<set<Key>>, ghost taken: Body)
      requires Valid() && DistinctItems(body) && forall item :: item in body ==> item.k.table in repository.tableNames
      modifies this, repository
      ensures Valid()
      ensures ids in old(answers) ==>
        && State() == old(State())
        && reply == if old(answers)[ids].body == body then Some(old(answers)[ids].accepted) else None
      ensures ids !in old(answers) ==>
        && DistinctItems(taken) && (forall item :: item in taken <==> item in body && !refuse(item.k))
        && State() == AfterRun(old(State()), ids, body, taken) && reply == Some(KeysOf(taken))
    {
      taken := [];
      if ids in answers {
        return if answers[ids].body == body then Some(answers[ids].accepted) else None, [];
      }
      var kept := Judge(body);
      KnownItems(kept, repository.tableNames);
      var ok := repository.ApplyPushChanges(ChangesOf(kept), repository.clock + 1);
      answers := answers[ids := Answer(body, KeysOf(kept))];
      return Some(KeysOf(kept)), kept;
    }
  }
}
