/** Credential entries and the pure list operations of the password context:
    the object spread that builds a new or updated entry, `findIndex`,
    `find` and `filter` by id.

    A JavaScript entry object is modelled as a record of optional fields:
    `None` means the key is absent from the object. Keys other than these
    nine are not modelled. Timestamps are integers (a clock reading) instead
    of ISO date strings. */
module Entries {
  import opened Common

  datatype Entry = Entry(
    id: Option<string>,
    title: Option<string>,
    username: Option<string>,
    email: Option<string>,
    url: Option<string>,
    notes: Option<string>,
    password: Option<string>,
    createdAt: Option<int>,
    updatedAt: Option<int>)

  /** The object literal `{}`. */
  const NoFields := Entry(None, None, None, None, None, None, None, None, None)

  function Pick<T>(base: Option<T>, over: Option<T>): Option<T> {
    if over.Some? then over else base
  }

  /** `{ ...base, ...over }`: every key present in `over` wins. */
  function Spread(base: Entry, over: Entry): Entry {
    Entry(Pick(base.id, over.id), Pick(base.title, over.title),
          Pick(base.username, over.username), Pick(base.email, over.email),
          Pick(base.url, over.url), Pick(base.notes, over.notes),
          Pick(base.password, over.password),
          Pick(base.createdAt, over.createdAt), Pick(base.updatedAt, over.updatedAt))
  }

  /** The entry `addPassword` builds:
      `{ id: uuid, ...draft, createdAt: created, updatedAt: updated }`.
      The source reads the clock once for each stamp, so the two readings
      are separate parameters and may differ. */
  function NewEntry(draft: Entry, uuid: string, created: int, updated: int): (e: Entry)
    ensures e.createdAt == Some(created) && e.updatedAt == Some(updated)
    ensures e.id == if draft.id.Some? then draft.id else Some(uuid)
    ensures e.title == draft.title && e.username == draft.username && e.email == draft.email
    ensures e.url == draft.url && e.notes == draft.notes && e.password == draft.password
  {
    Spread(Spread(NoFields.(id := Some(uuid)), draft),
           NoFields.(createdAt := Some(created), updatedAt := Some(updated)))
  }

  /** The entry `updatePassword` builds:
      `{ ...prev, ...updates, updatedAt: now }`. */
  function UpdatedEntry(prev: Entry, updates: Entry, now: int): (e: Entry)
    ensures e.updatedAt == Some(now)
    ensures e.id == Pick(prev.id, updates.id) && e.title == Pick(prev.title, updates.title)
    ensures e.username == Pick(prev.username, updates.username)
    ensures e.email == Pick(prev.email, updates.email) && e.url == Pick(prev.url, updates.url)
    ensures e.notes == Pick(prev.notes, updates.notes)
    ensures e.password == Pick(prev.password, updates.password)
    ensures e.createdAt == Pick(prev.createdAt, updates.createdAt)
  {
    Spread(Spread(prev, updates), NoFields.(updatedAt := Some(now)))
  }

  /** `p.id === id` for an entry `p`: an entry without an id never matches. */
  predicate HasId(e: Entry, id: string) {
    e.id == Some(id)
  }

  /** `list.findIndex(p => p.id === id)`: the first matching index, or -1. */
  function FindIndex(list: seq<Entry>, id: string): (k: int)
    ensures -1 <= k < |list|
    ensures k >= 0 ==> HasId(list[k], id)
    ensures k >= 0 ==> forall j :: 0 <= j < k ==> !HasId(list[j], id)
    ensures k == -1 <==> forall j :: 0 <= j < |list| ==> !HasId(list[j], id)
  {
    if |list| == 0 then -1
    else if HasId(list[0], id) then 0
    else
      var k := FindIndex(list[1..], id);
      if k == -1 then -1 else k + 1
  }

  /** `list.find(p => p.id === id) || null`. */
  function FindById(list: seq<Entry>, id: string): (r: Option<Entry>)
    ensures r.None? <==> forall j :: 0 <= j < |list| ==> !HasId(list[j], id)
    ensures r.Some? ==> r.value == list[FindIndex(list, id)]
  {
    if |list| == 0 then None
    else if HasId(list[0], id) then Some(list[0])
    else FindById(list[1..], id)
  }

  /** `list.filter(p => p.id !== id)`. */
  function RemoveId(list: seq<Entry>, id: string): (r: seq<Entry>)
    ensures |r| <= |list|
    ensures forall e :: e in r <==> e in list && !HasId(e, id)
  {
    if |list| == 0 then []
    else if HasId(list[0], id) then RemoveId(list[1..], id)
    else [list[0]] + RemoveId(list[1..], id)
  }

  /** Filtering by id keeps relative order: it distributes over concatenation. */
  lemma {:induction false} RemoveIdConcat(a: seq<Entry>, b: seq<Entry>, id: string)
    ensures RemoveId(a + b, id) == RemoveId(a, id) + RemoveId(b, id)
  {
    if |a| > 0 {
      assert (a + b)[1..] == a[1..] + b;
      RemoveIdConcat(a[1..], b, id);
    } else {
      assert a + b == b;
    }
  }

  /** Filtering by an id that no entry has returns the same list. */
  lemma {:induction false} RemoveUnknownId(list: seq<Entry>, id: string)
    requires forall j :: 0 <= j < |list| ==> !HasId(list[j], id)
    ensures RemoveId(list, id) == list
  {
    if |list| > 0 {
      RemoveUnknownId(list[1..], id);
      assert [list[0]] + list[1..] == list;
    }
  }
}
