/**
 * The subscriber list `STATE["subscribers"]` and the two commands that change
 * it, `/subscribe` and `/unsubscribe` (main.py:282-294). The list is written
 * to disk only when a command changes it; the write itself is not modelled,
 * and each method reports whether it happens.
 */
module Subscribers {

  /** No chat id appears twice. */
  predicate NoDup(s: seq<int>) {
    forall i, j :: 0 <= i < j < |s| ==> s[i] != s[j]
  }

  /** The list after `/subscribe` from `id`: appended when absent. */
  function Subscribed(s: seq<int>, id: int): seq<int> {
    if id in s then s else s + [id]
  }

  /** `list.remove(id)` when `id` is in the list: its first occurrence goes. */
  function RemoveFirst(s: seq<int>, id: int): seq<int>
    decreases |s|
  {
    if s == [] then []
    else if s[0] == id then s[1..]
    else [s[0]] + RemoveFirst(s[1..], id)
  }

  /** The list after `/unsubscribe` from `id`: its first occurrence removed, if any. */
  function Unsubscribed(s: seq<int>, id: int): seq<int> {
    if id in s then RemoveFirst(s, id) else s
  }

  /** After subscribing, the chat is in the list, the others are kept in order and nothing else is added. */
  lemma SubscribeSpec(s: seq<int>, id: int)
    ensures var r := Subscribed(s, id);
      && id in r
      && r[..|s|] == s
      && (|r| == |s| <==> id in s)
      && (forall x :: x in r <==> x in s || x == id)
  {
  }

  /** Subscribing twice is subscribing once. */
  lemma SubscribeIdempotent(s: seq<int>, id: int)
    ensures Subscribed(Subscribed(s, id), id) == Subscribed(s, id)
  {
  }

  /** Subscribing never introduces a duplicate. */
  lemma SubscribeKeepsNoDup(s: seq<int>, id: int)
    requires NoDup(s)
    ensures NoDup(Subscribed(s, id))
  {
  }

  /** Where the first occurrence of `id` is. */
  function FirstIndex(s: seq<int>, id: int): (i: nat)
    requires id in s
    ensures i < |s| && s[i] == id
    decreases |s|
  {
    if s[0] == id then 0 else 1 + FirstIndex(s[1..], id)
  }

  /** `RemoveFirst` drops the first occurrence of `id` and keeps everything else, in order. */
  lemma {:induction false} RemoveFirstSpec(s: seq<int>, id: int)
    requires id in s
    ensures var i := FirstIndex(s, id);
      id !in s[..i] && RemoveFirst(s, id) == s[..i] + s[i + 1..]
    decreases |s|
  {
    if s[0] != id {
      var t := s[1..];
      RemoveFirstSpec(t, id);
      var i := FirstIndex(t, id);
      assert s[..i + 1] == [s[0]] + t[..i];
      assert s[i + 2..] == t[i + 1..];
    }
  }

  /** Taking out the element at `i` takes one copy of it out of the multiset. */
  lemma DropAt(s: seq<int>, i: nat)
    requires i < |s|
    ensures multiset(s[..i] + s[i + 1..]) == multiset(s) - multiset{s[i]}
  {
    assert s == s[..i] + [s[i]] + s[i + 1..];
  }

  /** The chat ids left after `/unsubscribe`, counted with multiplicity. */
  lemma UnsubscribeCount(s: seq<int>, id: int)
    ensures multiset(Unsubscribed(s, id)) == multiset(s) - multiset{id}
    ensures (|Unsubscribed(s, id)| < |s|) <==> id in s
  {
    if id in s {
      RemoveFirstSpec(s, id);
      DropAt(s, FirstIndex(s, id));
    } else {
      assert multiset(s)[id] == 0;
    }
  }

  /** Dropping the element at `i` of a duplicate-free list leaves a duplicate-free list without it. */
  lemma NoDupDrop(s: seq<int>, i: nat)
    requires NoDup(s) && i < |s|
    ensures NoDup(s[..i] + s[i + 1..]) && s[i] !in s[..i] + s[i + 1..]
  {
    var r := s[..i] + s[i + 1..];
    forall a | 0 <= a < |r| ensures r[a] == s[if a < i then a else a + 1] {
    }
  }

  /** On a list without duplicates, `/unsubscribe` removes the chat altogether, keeps every other chat and keeps the list duplicate-free. */
  lemma UnsubscribeRemoves(s: seq<int>, id: int)
    requires NoDup(s)
    ensures var r := Unsubscribed(s, id);
      && id !in r
      && NoDup(r)
      && (forall x :: x in r <==> x in s && x != id)
  {
    var r := Unsubscribed(s, id);
    UnsubscribeCount(s, id);
    if id in s {
      RemoveFirstSpec(s, id);
      NoDupDrop(s, FirstIndex(s, id));
      forall x ensures x in r <==> x in multiset(s) && x != id {
        assert x in r <==> x in multiset(r);
      }
    }
  }

  /** Removing `id` from a list that ends with its only occurrence removes that last element. */
  lemma {:induction false} RemoveFirstLast(s: seq<int>, id: int)
    requires id !in s
    ensures RemoveFirst(s + [id], id) == s
    decreases |s|
  {
    if s != [] {
      RemoveFirstLast(s[1..], id);
      assert (s + [id])[1..] == s[1..] + [id];
    }
  }

  /** Unsubscribing a chat that had just subscribed restores the list as it was. */
  lemma SubscribeThenUnsubscribe(s: seq<int>, id: int)
    requires id !in s
    ensures Unsubscribed(Subscribed(s, id), id) == s
  {
    RemoveFirstLast(s, id);
  }

  /** `STATE["subscribers"]`, as loaded at start-up. */
  class SubscriberList {
    var chats: seq<int>

    constructor (loaded: seq<int>)
      ensures chats == loaded
    {
      chats := loaded;
    }

    /** `cmd_sub`: returns whether `save_state` runs, which is exactly when the list changed. */
    method Subscribe(id: int) returns (saved: bool)
      modifies this
      ensures chats == Subscribed(old(chats), id)
      ensures NoDup(old(chats)) ==> NoDup(chats)
      ensures saved <==> id !in old(chats)
      ensures saved <==> chats != old(chats)
    {
      assert NoDup(chats) ==> NoDup(Subscribed(chats, id)) by {
        if NoDup(chats) {
          SubscribeKeepsNoDup(chats, id);
        }
      }
      saved := id !in chats;
      if saved {
        chats := chats + [id];
      }
    }

    /** `cmd_unsub`: returns whether `save_state` runs, which is exactly when the list changed. */
    method Unsubscribe(id: int) returns (saved: bool)
      modifies this
      ensures chats == Unsubscribed(old(chats), id)
      ensures NoDup(old(chats)) ==> NoDup(chats) && id !in chats
      ensures saved <==> id in old(chats)
      ensures saved <==> chats != old(chats)
    {
      saved := id in chats;
      if saved {
        UnsubscribeCount(chats, id);
        assert NoDup(chats) ==> NoDup(RemoveFirst(chats, id)) && id !in RemoveFirst(chats, id) by {
          if NoDup(chats) {
            UnsubscribeRemoves(chats, id);
          }
        }
        chats := RemoveFirst(chats, id);
      }
    }
  }
}
