/** Abstract state of the three stores behind the engine: the subscription
    store (queried by topic, cleared per client), and the offline message
    store (events filed under the session of the client that published them). */
module Stores {
  import opened Wrappers
  import opened QosLevels
  import opened PublishEvents
  import opened ProtocolTypes

  /** The subscription store's answer for `topic`: every subscription whose
      filter the topic matcher accepts, in store order. */
  function SubscribersOf(subs: seq<Subscription>, matches: (string, string) -> bool, topic: string): (r: seq<Subscription>)
    ensures |r| <= |subs|
  {
    if subs == [] then []
    else (if matches(subs[0].topicFilter, topic) then [subs[0]] else []) + SubscribersOf(subs[1..], matches, topic)
  }

  /** The answer holds exactly the matching subscriptions of the store. */
  lemma {:induction false} SubscribersOfMembers(subs: seq<Subscription>, matches: (string, string) -> bool, topic: string)
    ensures forall s :: s in SubscribersOf(subs, matches, topic) <==> s in subs && matches(s.topicFilter, topic)
  {
    if subs != [] {
      SubscribersOfMembers(subs[1..], matches, topic);
      assert subs == [subs[0]] + subs[1..];
    }
  }

  /** The subscription store after `removeForClient(id)`. */
  function WithoutClient(subs: seq<Subscription>, id: string): (r: seq<Subscription>)
    ensures |r| <= |subs|
  {
    if subs == [] then []
    else (if subs[0].clientID != id then [subs[0]] else []) + WithoutClient(subs[1..], id)
  }

  /** Exactly the subscriptions of other clients survive `removeForClient(id)`. */
  lemma {:induction false} WithoutClientMembers(subs: seq<Subscription>, id: string)
    ensures forall s :: s in WithoutClient(subs, id) <==> s in subs && s.clientID != id
  {
    if subs != [] {
      WithoutClientMembers(subs[1..], id);
      assert subs == [subs[0]] + subs[1..];
    }
  }

  /** Clearing a client's subscriptions twice is clearing them once. */
  lemma {:induction false} WithoutClientIdempotent(subs: seq<Subscription>, id: string)
    ensures WithoutClient(WithoutClient(subs, id), id) == WithoutClient(subs, id)
  {
    if subs != [] {
      WithoutClientIdempotent(subs[1..], id);
      var rest := WithoutClient(subs[1..], id);
      if subs[0].clientID != id {
        assert WithoutClient(subs, id) == [subs[0]] + rest;
        assert ([subs[0]] + rest)[1..] == rest;
      } else {
        assert WithoutClient(subs, id) == rest;
      }
    }
  }

  /** One entry of the offline message store: the session it is filed under
      and the stored event itself (by reference). */
  datatype StoredEvent = StoredEvent(session: Option<string>, event: PublishEvent)

  /** No event object is filed twice. */
  predicate DistinctEvents(s: seq<StoredEvent>) {
    forall i, j :: 0 <= i < j < |s| ==> s[i].event != s[j].event
  }

  /** `listMessagesInSession(id)`: the events filed under `id`, oldest first. */
  function ListFor(s: seq<StoredEvent>, id: string): (r: seq<PublishEvent>)
    ensures |r| <= |s|
  {
    if s == [] then []
    else (if s[0].session == Some(id) then [s[0].event] else []) + ListFor(s[1..], id)
  }

  /** The listed events are those of the entries filed under `id`. */
  lemma {:induction false} ListForMembers(s: seq<StoredEvent>, id: string)
    ensures forall e :: e in ListFor(s, id) ==> exists k :: 0 <= k < |s| && s[k].session == Some(id) && s[k].event == e
    ensures forall k :: 0 <= k < |s| && s[k].session == Some(id) ==> s[k].event in ListFor(s, id)
  {
    if s != [] {
      ListForMembers(s[1..], id);
      var head := if s[0].session == Some(id) then [s[0].event] else [];
      assert ListFor(s, id) == head + ListFor(s[1..], id);
      forall e | e in ListFor(s, id)
        ensures exists k :: 0 <= k < |s| && s[k].session == Some(id) && s[k].event == e
      {
        if e !in head {
          var k :| 0 <= k < |s[1..]| && s[1..][k].session == Some(id) && s[1..][k].event == e;
          assert s[k + 1] == s[1..][k];
        }
      }
      forall k | 0 <= k < |s| && s[k].session == Some(id)
        ensures s[k].event in ListFor(s, id)
      {
        if k > 0 {
          assert s[k] == s[1..][k - 1];
        }
      }
    }
  }

  /** The store without the entries filed under `id`. */
  function KeepOthers(s: seq<StoredEvent>, id: string): (r: seq<StoredEvent>)
    ensures |r| <= |s|
  {
    if s == [] then []
    else (if s[0].session != Some(id) then [s[0]] else []) + KeepOthers(s[1..], id)
  }

  /** Exactly the entries filed under other sessions are kept. */
  lemma {:induction false} KeepOthersMembers(s: seq<StoredEvent>, id: string)
    ensures forall st :: st in KeepOthers(s, id) ==> st in s && st.session != Some(id)
    ensures forall st :: st in s && st.session != Some(id) ==> st in KeepOthers(s, id)
  {
    if s != [] {
      KeepOthersMembers(s[1..], id);
      assert s == [s[0]] + s[1..];
    }
  }

  /** With nothing listed for `id`, dropping its entries leaves the store as it was. */
  lemma {:induction false} NothingListedKeepsAll(s: seq<StoredEvent>, id: string)
    requires ListFor(s, id) == []
    ensures KeepOthers(s, id) == s
  {
    if s != [] {
      assert s[0].session != Some(id);
      NothingListedKeepsAll(s[1..], id);
      assert s == [s[0]] + s[1..];
    }
  }

  /** The store after removing each event of `evs`;
      `removeMessageInSessionForPublish(ev)` is `KeepUnlisted(s, [ev])`. */
  function KeepUnlisted(s: seq<StoredEvent>, evs: seq<PublishEvent>): (r: seq<StoredEvent>)
    ensures |r| <= |s|
  {
    if s == [] then []
    else (if s[0].event !in evs then [s[0]] else []) + KeepUnlisted(s[1..], evs)
  }

  /** Exactly the entries whose event is not among `evs` are kept. */
  lemma {:induction false} KeepUnlistedMembers(s: seq<StoredEvent>, evs: seq<PublishEvent>)
    ensures forall st :: st in KeepUnlisted(s, evs) ==> st in s && st.event !in evs
    ensures forall st :: st in s && st.event !in evs ==> st in KeepUnlisted(s, evs)
  {
    if s != [] {
      KeepUnlistedMembers(s[1..], evs);
      assert s == [s[0]] + s[1..];
    }
  }

  /** Removing the events one at a time is removing them all at once. */
  lemma {:induction false} KeepUnlistedStep(s: seq<StoredEvent>, evs: seq<PublishEvent>, ev: PublishEvent)
    ensures KeepUnlisted(KeepUnlisted(s, evs), [ev]) == KeepUnlisted(s, evs + [ev])
  {
    if s != [] {
      KeepUnlistedStep(s[1..], evs, ev);
      var rest := KeepUnlisted(s[1..], evs);
      if s[0].event !in evs {
        assert KeepUnlisted(s, evs) == [s[0]] + rest;
        assert ([s[0]] + rest)[1..] == rest;
      } else {
        assert KeepUnlisted(s, evs) == rest;
      }
    }
  }

  /** Removing nothing leaves the store as it was. */
  lemma {:induction false} KeepUnlistedNothing(s: seq<StoredEvent>)
    ensures KeepUnlisted(s, []) == s
  {
    if s != [] {
      KeepUnlistedNothing(s[1..]);
      assert s == [s[0]] + s[1..];
    }
  }

  /** Filtering by two tests that agree on every entry gives the same store. */
  lemma {:induction false} KeepUnlistedAgrees(s: seq<StoredEvent>, evs: seq<PublishEvent>, id: string)
    requires forall k :: 0 <= k < |s| ==> (s[k].event in evs <==> s[k].session == Some(id))
    ensures KeepUnlisted(s, evs) == KeepOthers(s, id)
  {
    if s != [] {
      KeepUnlistedAgrees(s[1..], evs, id);
    }
  }

  /** With distinct events, an entry's event is listed for `id` exactly when
      the entry is filed under `id`. */
  lemma {:induction false} ListForMember(s: seq<StoredEvent>, id: string, k: nat)
    requires DistinctEvents(s)
    requires k < |s|
    ensures s[k].event in ListFor(s, id) <==> s[k].session == Some(id)
  {
    ListForMembers(s, id);
    if s[k].event in ListFor(s, id) {
      var j :| 0 <= j < |s| && s[j].session == Some(id) && s[j].event == s[k].event;
      assert j == k;
    }
  }

  /** Removing every event listed for `id` empties exactly `id`'s part of the store. */
  lemma ListForCleared(s: seq<StoredEvent>, id: string)
    requires DistinctEvents(s)
    ensures KeepUnlisted(s, ListFor(s, id)) == KeepOthers(s, id)
  {
    forall k | 0 <= k < |s|
      ensures s[k].event in ListFor(s, id) <==> s[k].session == Some(id)
    {
      ListForMember(s, id, k);
    }
    KeepUnlistedAgrees(s, ListFor(s, id), id);
  }

  /** Keeping a subsequence of entries keeps them distinct. */
  lemma {:induction false} KeepOthersDistinct(s: seq<StoredEvent>, id: string)
    requires DistinctEvents(s)
    ensures DistinctEvents(KeepOthers(s, id))
  {
    if s != [] {
      KeepOthersDistinct(s[1..], id);
      KeepOthersMembers(s[1..], id);
      var rest := KeepOthers(s[1..], id);
      if s[0].session != Some(id) {
        var r := [s[0]] + rest;
        forall i, j | 0 <= i < j < |r| ensures r[i].event != r[j].event {
          if i == 0 {
            assert r[j] in rest;
            assert r[j] in s[1..];
            var m :| 0 <= m < |s[1..]| && s[1..][m] == r[j];
            assert s[m + 1] == r[j];
          } else {
            assert r[i] == rest[i - 1] && r[j] == rest[j - 1];
          }
        }
      }
    }
  }

  /** The trace entries of removing `evs` one by one, in list order. */
  function RemovalEffects(evs: seq<PublishEvent>): (r: seq<Effect>)
    ensures |r| == |evs|
  {
    if evs == [] then [] else RemovalEffects(evs[..|evs| - 1]) + [Store(RemoveMessage(evs[|evs| - 1]))]
  }

  /** One more removal from a list: the store loses the next listed event
      and one more removal effect is appended. */
  lemma RemovalStep(s: seq<StoredEvent>, list: seq<PublishEvent>, i: nat)
    requires i < |list|
    ensures KeepUnlisted(KeepUnlisted(s, list[..i]), [list[i]]) == KeepUnlisted(s, list[..i + 1])
    ensures RemovalEffects(list[..i + 1]) == RemovalEffects(list[..i]) + [Store(RemoveMessage(list[i]))]
  {
    assert list[..i + 1] == list[..i] + [list[i]];
    KeepUnlistedStep(s, list[..i], list[i]);
    assert list[..i + 1][..i] == list[..i];
  }

  /** The i-th removal is of the i-th listed event, and none is a write. */
  lemma {:induction false} RemovalEffectsAt(evs: seq<PublishEvent>, i: nat)
    requires i < |evs|
    ensures RemovalEffects(evs)[i] == Store(RemoveMessage(evs[i]))
    ensures !RemovalEffects(evs)[i].Write? && !RemovalEffects(evs)[i].Close?
    decreases |evs|
  {
    if i < |evs| - 1 {
      RemovalEffectsAt(evs[..|evs| - 1], i);
    }
  }
}
