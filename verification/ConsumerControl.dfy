/**
 * The registry of result consumers, and the commands that keep it and the clients' own lists of
 * consumers in agreement.
 */
module ConsumerControl {
  import opened Options
  import opened ConsumerBuffer

  type Id = nat

  const MAX_RESULT_CONSUMERS := 256
  const MAX_CONSUMER_BUFFER_SIZE := 10000

  datatype Kind = JobScope | ProbeScope | TargetScope
  datatype Scope = Scope(kind: Kind, id: Id)

  /** A registered consumer: whose it is, what it listens to, and its buffer. */
  datatype Registered = Registered(owner: Option<Id>, scope: Scope, buffer: Consumer)

  /** A record about the job or probe `source` on `target` concerns this consumer. */
  predicate Concerns(r: Registered, target: Id, source: Scope) {
    r.scope == source || r.scope == Scope(TargetScope, target)
  }

  /** The registry after one record about `source` reached every consumer it concerns. */
  function OfferedTo(cs: map<Id, Registered>, ids: set<Id>, x: Content): map<Id, Registered> {
    map k | k in cs :: if k in ids then cs[k].(buffer := Offer(cs[k].buffer, x)) else cs[k]
  }

  function Concerned(cs: map<Id, Registered>, target: Id, source: Scope): set<Id> {
    set k | k in cs && Concerns(cs[k], target, source)
  }

  /** Those of them that take the record. */
  function Takers(cs: map<Id, Registered>, target: Id, source: Scope): set<Id> {
    set k | k in cs && Concerns(cs[k], target, source) && Accepts(cs[k].buffer)
  }

  /** Those among `ids` that take it. */
  function Taking(cs: map<Id, Registered>, ids: set<Id>): set<Id> {
    set k | k in cs && k in ids && Accepts(cs[k].buffer)
  }

  lemma OfferedNone(cs: map<Id, Registered>, x: Content)
    ensures OfferedTo(cs, {}, x) == cs && Taking(cs, {}) == {}
  {
  }

  lemma OfferedOneMore(cs: map<Id, Registered>, ids: set<Id>, k: Id, x: Content)
    requires k in cs && k !in ids
    ensures OfferedTo(cs, ids, x)[k] == cs[k]
    ensures OfferedTo(cs, ids + {k}, x) == OfferedTo(cs, ids, x)[k := cs[k].(buffer := Offer(cs[k].buffer, x))]
    ensures |Taking(cs, ids + {k})| == |Taking(cs, ids)| + if Accepts(cs[k].buffer) then 1 else 0
  {
    assert Taking(cs, ids + {k}) == Taking(cs, ids) + if Accepts(cs[k].buffer) then {k} else {};
  }

  /** Python's `list.remove`: the first occurrence. */
  function RemoveFirst(xs: seq<Id>, x: Id): (r: seq<Id>)
    ensures multiset(r) == multiset(xs) - multiset{x}
  {
    if xs == [] then []
    else if xs[0] == x then
      assert xs == [x] + xs[1..];
      xs[1..]
    else
      assert xs == [xs[0]] + xs[1..];
      [xs[0]] + RemoveFirst(xs[1..], x)
  }

  /** Every buffer is a contiguous block. */
  ghost predicate BlocksOk(cs: map<Id, Registered>) {
    forall k :: k in cs ==> Block(cs[k].buffer) && cs[k].buffer.status != Draining
  }

  ghost predicate Owns(cs: map<Id, Registered>, c: Id, k: Id) {
    k in cs && cs[k].owner == Some(c) && cs[k].buffer.status != Closed
  }

  /** The list of client `c` names exactly its own consumers that are not closed, each once. */
  ghost predicate ListsOwn(cs: map<Id, Registered>, c: Id, xs: seq<Id>) {
    forall k :: (k in xs <==> Owns(cs, c, k)) && multiset(xs)[k] <= 1
  }

  ghost predicate CrossLinked(cs: map<Id, Registered>, listed: map<Id, seq<Id>>) {
    forall c :: c in listed ==> ListsOwn(cs, c, listed[c])
  }

  /** Offering a record closes nothing, so both agreements survive it. */
  lemma OfferedKeeps(cs: map<Id, Registered>, listed: map<Id, seq<Id>>, ids: set<Id>, x: Content)
    requires BlocksOk(cs) && CrossLinked(cs, listed)
    ensures BlocksOk(OfferedTo(cs, ids, x)) && CrossLinked(OfferedTo(cs, ids, x), listed)
  {
    var after := OfferedTo(cs, ids, x);
    forall k | k in cs ensures Block(after[k].buffer) && after[k].buffer.status != Draining {
      OfferKeepsBlock(cs[k].buffer, x);
    }
    forall c | c in listed ensures ListsOwn(after, c, listed[c]) {
      assert ListsOwn(cs, c, listed[c]);
      forall k ensures Owns(after, c, k) <==> Owns(cs, c, k) {
      }
    }
  }

  /** A consumer that is closed or removed must leave its owner's list, and no other list. */
  lemma LeavesList(cs: map<Id, Registered>, after: map<Id, Registered>, listed: map<Id, seq<Id>>, k: Id)
    requires CrossLinked(cs, listed) && k in cs
    requires forall c, j :: Owns(after, c, j) <==> Owns(cs, c, j) && j != k
    ensures CrossLinked(after, Unlisted(listed, cs[k].owner, k))
  {
    var left := Unlisted(listed, cs[k].owner, k);
    forall c | c in left ensures ListsOwn(after, c, left[c]) {
      assert ListsOwn(cs, c, listed[c]);
      if cs[k].owner == Some(c) {
        RemovedOnce(listed[c], k);
      } else {
        forall j ensures Owns(after, c, j) <==> Owns(cs, c, j) {
        }
      }
    }
  }

  /** The lists after consumer `k` was taken off its owner's, if the owner is still registered. */
  function Unlisted(listed: map<Id, seq<Id>>, owner: Option<Id>, k: Id): map<Id, seq<Id>> {
    if owner.Some? && owner.value in listed then listed[owner.value := RemoveFirst(listed[owner.value], k)] else listed
  }

  /** Does a cleanup by `requester` remove this consumer? */
  predicate Doomed(r: Registered, requester: Option<Id>, closedOnly: bool) {
    r.owner == requester && (closedOnly ==> Terminal(r.buffer))
  }

  lemma {:induction false} AbsentStays(xs: seq<Id>, x: Id)
    requires x !in xs
    ensures RemoveFirst(xs, x) == xs
  {
    if xs != [] {
      AbsentStays(xs[1..], x);
    }
  }

  /** Taking a number out of a list without repetitions takes out that number and nothing else. */
  lemma RemovedOnce(xs: seq<Id>, k: Id)
    requires forall j :: multiset(xs)[j] <= 1
    ensures forall j :: (j in RemoveFirst(xs, k) <==> j in xs && j != k) && multiset(RemoveFirst(xs, k))[j] <= 1
  {
    var r := RemoveFirst(xs, k);
    forall j ensures (j in r <==> j in xs && j != k) && multiset(r)[j] <= 1 {
      assert (j in r <==> j in multiset(r)) && (j in xs <==> j in multiset(xs));
      assert multiset(xs)[j] <= 1;
    }
  }

  /** A new consumer joins the list of its owner, if it has one. */
  lemma JoinsList(cs: map<Id, Registered>, listed: map<Id, seq<Id>>, k: Id, r: Registered)
    requires CrossLinked(cs, listed) && k !in cs && r.buffer.status != Closed
    requires r.owner.Some? ==> r.owner.value in listed
    ensures r.owner.None? ==> CrossLinked(cs[k := r], listed)
    ensures r.owner.Some? ==> k !in listed[r.owner.value]
                              && CrossLinked(cs[k := r], listed[r.owner.value := listed[r.owner.value] + [k]])
  {
    var after := cs[k := r];
    forall c | c in listed
      ensures r.owner != Some(c) ==> ListsOwn(after, c, listed[c])
      ensures r.owner == Some(c) ==> k !in listed[c] && ListsOwn(after, c, listed[c] + [k])
    {
      assert ListsOwn(cs, c, listed[c]);
      assert !Owns(cs, c, k) && k !in listed[c];
      assert multiset(listed[c])[k] == 0;
      forall j ensures Owns(after, c, j) <==> Owns(cs, c, j) || (j == k && r.owner == Some(c)) {
      }
    }
  }

  class Control {
    var consumers: map<Id, Registered>
    /** For each client session the consumers it lists as its own. */
    var listed: map<Id, seq<Id>>

    constructor ()
      ensures Valid() && consumers == map[] && listed == map[]
    {
      consumers, listed := map[], map[];
    }

    /**
     * A registered client lists exactly the consumers that are registered as its own and not
     * closed, each once; and every buffer is a contiguous block.
     */
    ghost predicate Valid()
      reads this
    {
      BlocksOk(consumers) && CrossLinked(consumers, listed)
    }

    /** A new client has no consumers; its id has never been used. */
    method CreateClient(c: Id)
      requires Valid() && c !in listed && forall k :: k in consumers ==> consumers[k].owner != Some(c)
      modifies this`listed
      ensures Valid() && listed == old(listed)[c := []]
    {
      listed := listed[c := []];
    }

    /** Closing a client forgets its list; its consumers stay registered. */
    method CloseClient(c: Id) returns (closed: bool)
      requires Valid()
      modifies this`listed
      ensures Valid() && closed == (c in old(listed)) && listed == old(listed) - {c}
    {
      closed := c in listed;
      listed := listed - {c};
    }

    /** Creates a consumer for an existing client, or for none; false with no effect otherwise. */
    method Create(k: Id, owner: Option<Id>, scope: Scope, maxBufferSize: int, policy: Policy) returns (ok: bool)
      requires Valid() && k !in consumers
      modifies this
      ensures Valid()
      ensures ok <==> 0 < maxBufferSize <= MAX_CONSUMER_BUFFER_SIZE && |old(consumers)| < MAX_RESULT_CONSUMERS
                      && (owner.Some? ==> owner.value in old(listed))
      ensures ok ==> consumers == old(consumers)[k := Registered(owner, scope, Fresh(policy, maxBufferSize))]
      ensures ok && owner.Some? ==> listed == old(listed)[owner.value := old(listed)[owner.value] + [k]]
      ensures !ok ==> consumers == old(consumers)
      ensures !ok || owner.None? ==> listed == old(listed)
    {
      if owner.Some? && owner.value !in listed {
        return false;
      }
      if maxBufferSize <= 0 || maxBufferSize > MAX_CONSUMER_BUFFER_SIZE || |consumers| >= MAX_RESULT_CONSUMERS {
        return false;
      }
      JoinsList(consumers, listed, k, Registered(owner, scope, Fresh(policy, maxBufferSize)));
      consumers := consumers[k := Registered(owner, scope, Fresh(policy, maxBufferSize))];
      if owner.Some? {
        if k !in listed[owner.value] {
          listed := listed[owner.value := listed[owner.value] + [k]];
        }
      }
      ok := true;
    }

    /** Offers one record to one consumer. */
    method AppendRecord(k: Id, x: Content) returns (ok: bool)
      requires k in consumers ==> Block(consumers[k].buffer)
      modifies this`consumers
      ensures k !in old(consumers) ==> !ok && consumers == old(consumers)
      ensures k in old(consumers) ==>
                && ok == Accepts(old(consumers)[k].buffer)
                && consumers == old(consumers)[k := old(consumers)[k].(buffer := Offer(old(consumers)[k].buffer, x))]
    {
      if k !in consumers {
        return false;
      }
      var r := consumers[k];
      var c := r.buffer;
      OfferKeepsBlock(c, x);
      if c.status == Closed || c.status == Failed {
        assert consumers == consumers[k := r.(buffer := Offer(c, x))];
        return false;
      }
      var queue := c.records;
      if |queue| >= c.maxBufferSize {
        if c.policy == DropNewest {
          consumers := consumers[k := r.(buffer := c.(dropped := c.dropped + 1, bufferSize := |queue|))];
          return true;
        }
        if c.policy == Fail {
          consumers := consumers[k := r.(buffer := c.(status := Failed, bufferSize := |queue|))];
          return false;
        }
        if queue != [] {
          queue := queue[1..];
        }
        c := c.(dropped := c.dropped + 1);
      }
      queue := queue + [Record(c.next, x)];
      c := c.(records := queue, next := c.next + 1, bufferSize := |queue|);
      consumers := consumers[k := r.(buffer := c)];
      ok := true;
    }

    /** Offers one record to every consumer it concerns, and reports how many took it. */
    method AppendForScope(target: Id, source: Scope, x: Content) returns (appended: nat)
      requires Valid()
      modifies this`consumers
      ensures Valid()
      ensures consumers == OfferedTo(old(consumers), Concerned(old(consumers), target, source), x)
      ensures consumers.Keys == old(consumers).Keys
      ensures forall k :: k in consumers ==>
                consumers[k] == if old(consumers)[k].scope == source || old(consumers)[k].scope == Scope(TargetScope, target)
                                then old(consumers)[k].(buffer := Offer(old(consumers)[k].buffer, x))
                                else old(consumers)[k]
      ensures appended == |Takers(old(consumers), target, source)|
    {
      ghost var start := consumers;
      var matching := Concerned(consumers, target, source);
      OfferedKeeps(start, listed, matching, x);
      appended := AppendAll(matching, x);
      assert Taking(start, matching) == Takers(start, target, source);
    }

    /** The loop of it. */
    method AppendAll(matching: set<Id>, x: Content) returns (appended: nat)
      requires BlocksOk(consumers) && matching <= consumers.Keys
      modifies this`consumers
      ensures consumers == OfferedTo(old(consumers), matching, x)
      ensures appended == |Taking(old(consumers), matching)|
    {
      ghost var start := consumers;
      var todo := matching;
      appended := 0;
      OfferedNone(start, x);
      while todo != {}
        invariant todo <= matching
        invariant consumers == OfferedTo(start, matching - todo, x)
        invariant appended == |Taking(start, matching - todo)|
      {
        var k :| k in todo;
        OfferedOneMore(start, matching - todo, k, x);
        var ok := AppendRecord(k, x);
        if ok {
          appended := appended + 1;
        }
        assert matching - (todo - {k}) == matching - todo + {k};
        todo := todo - {k};
      }
      assert matching - todo == matching;
    }

    /** Returns a page of what a consumer retains; nothing is removed and the status is as before. */
    method Drain(k: Id, limit: int, after: Option<int>) returns (page: Option<Page>)
      requires Valid() && limit > 0
      modifies this`consumers
      ensures Valid() && consumers == old(consumers)
      ensures page == if k in consumers then Some(PageAfter(consumers[k].buffer, limit, after)) else None
    {
      if k !in consumers {
        return None;
      }
      var selected := DrainBuffer(k, limit, after);
      page := Some(selected);
    }

    method DrainBuffer(k: Id, limit: nat, after: Option<int>) returns (page: Page)
      requires k in consumers && Block(consumers[k].buffer) && consumers[k].buffer.status != Draining && limit > 0
      modifies this`consumers
      ensures consumers == old(consumers)
      ensures page == PageAfter(consumers[k].buffer, limit, after)
    {
      ghost var start, all := consumers[k], consumers;
      var c := consumers[k].buffer;
      if c.status == Active {
        c := c.(status := Draining);
        SetBuffer(k, c);
      }
      page := SelectPage(c, limit, after);
      if c.status == Draining {
        c := c.(status := Active);
      }
      SetBuffer(k, c.(bufferSize := |c.records|));
      assert consumers[k] == start;
      assert consumers == all;
    }

    method SetBuffer(k: Id, c: Consumer)
      requires k in consumers
      modifies this`consumers
      ensures consumers == old(consumers)[k := old(consumers)[k].(buffer := c)]
    {
      consumers := consumers[k := consumers[k].(buffer := c)];
    }

    method SelectPage(c: Consumer, limit: nat, after: Option<int>) returns (p: Page)
      requires limit > 0
      ensures p == PageAfter(c, limit, after)
    {
      var eligible := Eligible(c.records, after);
      var selected := if |eligible| > limit then eligible[..limit] else eligible;
      var next := if selected != [] then selected[|selected| - 1].sequence else if after.Some? then after.value else 0;
      p := Page(selected, next, |eligible| > |selected|);
    }

    /** Takes a consumer off its owner's list. */
    method Unlist(c: Id, k: Id)
      modifies this`listed
      ensures listed == Unlisted(old(listed), Some(c), k)
    {
      if c in listed {
        if k in listed[c] {
          listed := listed[c := RemoveFirst(listed[c], k)];
        } else {
          AbsentStays(listed[c], k);
          assert listed[c := listed[c]] == listed;
        }
      }
    }

    /** Closes a consumer for its owner; false with no effect when it is not the requester's. */
    method Close(k: Id, requester: Option<Id>) returns (ok: bool)
      requires Valid()
      modifies this
      ensures Valid()
      ensures ok <==> k in old(consumers) && old(consumers)[k].owner == requester
      ensures !ok ==> consumers == old(consumers) && listed == old(listed)
      ensures ok ==> consumers == old(consumers)[k := old(consumers)[k].(buffer := old(consumers)[k].buffer.(status := Closed))]
      ensures ok ==> listed == Unlisted(old(listed), requester, k)
    {
      if k !in consumers || consumers[k].owner != requester {
        return false;
      }
      var r := consumers[k];
      SetBuffer(k, r.buffer.(status := Closed));
      LeavesList(old(consumers), consumers, listed, k);
      if r.owner.Some? {
        Unlist(r.owner.value, k);
      }
      ok := true;
    }

    /** Removes the requester's consumers, or only those that are closed or failed. */
    method Cleanup(requester: Option<Id>, closedOnly: bool) returns (removed: set<Id>)
      requires Valid()
      modifies this
      ensures Valid()
      ensures forall k :: k in removed <==>
                && k in old(consumers) && old(consumers)[k].owner == requester
                && (closedOnly ==> old(consumers)[k].buffer.status in {Closed, Failed})
      ensures consumers == old(consumers) - removed
      ensures listed.Keys == old(listed).Keys
      ensures forall c :: c in listed && Some(c) != requester ==> listed[c] == old(listed)[c]
    {
      ghost var start := consumers;
      removed := {};
      var todo := consumers.Keys;
      while todo != {}
        invariant Valid() && todo <= consumers.Keys && consumers == start - removed
        invariant removed == set k | k in start && k !in todo && Doomed(start[k], requester, closedOnly)
        invariant listed.Keys == old(listed).Keys
        invariant forall c :: c in listed && Some(c) != requester ==> listed[c] == old(listed)[c]
      {
        var k :| k in todo;
        todo := todo - {k};
        assert consumers[k] == start[k];
        if consumers[k].owner == requester && (closedOnly ==> Terminal(consumers[k].buffer)) {
          RemoveOne(k);
          removed := removed + {k};
        }
      }
    }

    method RemoveOne(k: Id)
      requires Valid() && k in consumers
      modifies this
      ensures Valid() && consumers == old(consumers) - {k}
      ensures listed.Keys == old(listed).Keys
      ensures forall c :: c in listed && Some(c) != old(consumers)[k].owner ==> listed[c] == old(listed)[c]
    {
      var owner := consumers[k].owner;
      consumers := consumers - {k};
      LeavesList(old(consumers), consumers, listed, k);
      if owner.Some? {
        Unlist(owner.value, k);
      }
    }
  }
}
