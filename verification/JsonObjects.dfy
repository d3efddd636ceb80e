/**
 What becomes of an object's members as they are written: of a repeated key the last value counts, keys that are array
 indices come first and ascend, and the others stand in the order in which each was first written.
 */
module JsonObjects {
  import opened Wrappers
  import opened Text
  import opened Json
  import opened JsonRoundTrip

  // ---- values ----

  /** The last value written for a key. */
  function LastWritten(written: Members, key: Str): Option<Value> {
    if written.NoMembers? then None
    else
      var later := LastWritten(written.rest, key);
      if later.Some? then later else if written.key == key then Some(written.value) else None
  }

  lemma {:induction false} GetInserted(members: Members, key: Str, value: Value, other: Str)
    requires !HasKey(members, key)
    ensures Get(Insert(members, key, value), other) == if other == key then Some(value) else Get(members, other)
  {
    if members.Member? && !GoesBefore(key, members.key) {
      GetInserted(members.rest, key, value, other);
    }
  }

  lemma {:induction false} GetReplaced(members: Members, key: Str, value: Value, other: Str)
    requires HasKey(members, key)
    ensures Get(Replace(members, key, value), other) == if other == key then Some(value) else Get(members, other)
  {
    if members.key != key {
      GetReplaced(members.rest, key, value, other);
    }
  }

  lemma GetPut(members: Members, key: Str, value: Value, other: Str)
    ensures Get(Put(members, key, value), other) == if other == key then Some(value) else Get(members, other)
  {
    if HasKey(members, key) {
      GetReplaced(members, key, value, other);
    } else {
      GetInserted(members, key, value, other);
    }
  }

  lemma {:induction false} GetPutAll(into: Members, written: Members, key: Str)
    ensures Get(PutAll(into, written), key)
         == if LastWritten(written, key).Some? then LastWritten(written, key) else Get(into, key)
    decreases written
  {
    if written.Member? {
      GetPutAll(Put(into, written.key, written.value), written.rest, key);
      GetPut(into, written.key, written.value, key);
    }
  }

  // ---- order ----

  function Keys(members: Members): seq<Str> {
    if members.NoMembers? then [] else [members.key] + Keys(members.rest)
  }

  /** The keys that are no indices, in their order. */
  function Others(members: Members): seq<Str> {
    if members.NoMembers? then []
    else (if IsIndex(members.key) then [] else [members.key]) + Others(members.rest)
  }

  /** Each that is no index where it was first written, after those there were. */
  function FirstWritten(written: Members, before: seq<Str>): seq<Str> {
    if written.NoMembers? then before
    else
      FirstWritten(written.rest,
                   if IsIndex(written.key) || written.key in before then before else before + [written.key])
  }

  lemma {:induction false} OtherIffKey(members: Members, key: Str)
    ensures key in Others(members) <==> HasKey(members, key) && !IsIndex(key)
  {
    if members.Member? {
      OtherIffKey(members.rest, key);
    }
  }

  lemma {:induction false} OthersReplaced(members: Members, key: Str, value: Value)
    ensures Others(Replace(members, key, value)) == Others(members)
  {
    if members.Member? && members.key != key {
      OthersReplaced(members.rest, key, value);
    }
  }

  lemma {:induction false} OthersInserted(members: Members, key: Str, value: Value)
    ensures Others(Insert(members, key, value)) == if IsIndex(key) then Others(members) else Others(members) + [key]
  {
    if members.Member? && !GoesBefore(key, members.key) {
      OthersInserted(members.rest, key, value);
      var first := if IsIndex(members.key) then [] else [members.key];
      assert first + (Others(members.rest) + [key]) == first + Others(members.rest) + [key];
    } else {
      assert [] + Others(members) == Others(members);
    }
  }

  lemma {:induction false} OthersPutAll(into: Members, written: Members)
    ensures Others(PutAll(into, written)) == FirstWritten(written, Others(into))
    decreases written
  {
    if written.Member? {
      var key := written.key;
      OthersPutAll(Put(into, key, written.value), written.rest);
      OtherIffKey(into, key);
      OthersReplaced(into, key, written.value);
      OthersInserted(into, key, written.value);
    }
  }

  lemma {:induction false} NoneBeforeAt(members: Members, key: Str, j: nat)
    requires NoneGoesBefore(members, key) && j < |Keys(members)|
    ensures !GoesBefore(Keys(members)[j], key)
  {
    if j > 0 {
      NoneBeforeAt(members.rest, key, j - 1);
    }
  }

  lemma {:induction false} ListedAt(members: Members, i: nat, j: nat)
    requires Listed(members) && i < j < |Keys(members)|
    ensures !GoesBefore(Keys(members)[j], Keys(members)[i])
  {
    if i == 0 {
      NoneBeforeAt(members.rest, members.key, j - 1);
    } else {
      ListedAt(members.rest, i - 1, j - 1);
    }
  }

  /** An object as it is read: the last value of every key, the indices in front, the others as they first came. */
  lemma ObjectAsRead(written: Members, key: Str)
    requires AreMembers(written)
    ensures var members := PutAll(NoMembers, written);
            && Get(members, key) == LastWritten(written, key)
            && Others(members) == FirstWritten(written, [])
            && Distinct(members)
            && forall i, j :: 0 <= i < j < |Keys(members)| ==> !GoesBefore(Keys(members)[j], Keys(members)[i])
  {
    var members := PutAll(NoMembers, written);
    GetPutAll(NoMembers, written, key);
    OthersPutAll(NoMembers, written);
    PutAllIsValue(NoMembers, written);
    forall i, j | 0 <= i < j < |Keys(members)| ensures !GoesBefore(Keys(members)[j], Keys(members)[i]) {
      ListedAt(members, i, j);
    }
  }
}
