/** The member directory: member records and the three tables built from the
    bundled dataset, looked up by English name, homepage id and message id. */
module Member {
  import opened Errors
  import opened Text

  /** One member's record; immutable once loaded. */
  datatype MemberInfo = MemberInfo(
    name: string,
    lastNameJp: string,
    firstNameJp: string,
    lastNameKana: string,
    firstNameKana: string,
    homepageId: int,
    messageId: int,
    birthday: string,
    generation: int)
  {
    /** The Japanese name: family name, then given name, with no separator. */
    function NameJp(): (r: string)
      ensures |r| == |lastNameJp| + |firstNameJp|
      ensures r[..|lastNameJp|] == lastNameJp && r[|lastNameJp|..] == firstNameJp
    {
      lastNameJp + firstNameJp
    }
  }

  function NameKey(m: MemberInfo): string { m.name }
  function HomepageKey(m: MemberInfo): int { m.homepageId }
  function MessageKey(m: MemberInfo): int { m.messageId }

  /** The table that `for r in records: table[key(r)] = r` leaves behind,
      starting from an empty one. */
  function Index<K>(records: seq<MemberInfo>, key: MemberInfo -> K): map<K, MemberInfo>
  {
    if records == [] then map[]
    else Index(records[..|records| - 1], key)[key(records[|records| - 1]) := records[|records| - 1]]
  }

  /** Record i is the last one in the list with its key. */
  ghost predicate IsLastWithKey<K>(records: seq<MemberInfo>, key: MemberInfo -> K, i: int) {
    0 <= i < |records| && forall j :: i < j < |records| ==> key(records[j]) != key(records[i])
  }

  /** No two records share a key. */
  ghost predicate UniqueKeys<K>(records: seq<MemberInfo>, key: MemberInfo -> K) {
    forall i, j :: 0 <= i < j < |records| ==> key(records[i]) != key(records[j])
  }

  /** The table's keys are exactly the keys of the records. */
  lemma {:induction false} IndexKeys<K>(records: seq<MemberInfo>, key: MemberInfo -> K, k: K)
    ensures k in Index(records, key) <==> exists i :: 0 <= i < |records| && key(records[i]) == k
  {
    if records != [] {
      var n := |records| - 1;
      var prefix := records[..n];
      IndexKeys(prefix, key, k);
      if k in Index(prefix, key) {
        var i :| 0 <= i < |prefix| && key(prefix[i]) == k;
        assert key(records[i]) == k;
      }
      if exists i :: 0 <= i < |records| && key(records[i]) == k {
        var i :| 0 <= i < |records| && key(records[i]) == k;
        if i < n {
          assert key(prefix[i]) == k;
        }
      }
    }
  }

  /** Last write wins: the table maps each key to the last record carrying it. */
  lemma {:induction false} IndexLastWins<K>(records: seq<MemberInfo>, key: MemberInfo -> K, i: int)
    requires IsLastWithKey(records, key, i)
    ensures key(records[i]) in Index(records, key)
    ensures Index(records, key)[key(records[i])] == records[i]
  {
    var n := |records| - 1;
    if i < n {
      var prefix := records[..n];
      assert IsLastWithKey(prefix, key, i) by {
        forall j | i < j < |prefix| ensures key(prefix[j]) != key(prefix[i]) {
          assert prefix[j] == records[j];
        }
      }
      IndexLastWins(prefix, key, i);
    }
  }

  /** Every entry of the table is the last record carrying its key. */
  lemma {:induction false} IndexValue<K>(records: seq<MemberInfo>, key: MemberInfo -> K, k: K)
    requires k in Index(records, key)
    ensures exists i :: IsLastWithKey(records, key, i) && key(records[i]) == k && Index(records, key)[k] == records[i]
  {
    var n := |records| - 1;
    if key(records[n]) == k {
      assert IsLastWithKey(records, key, n);
    } else {
      var prefix := records[..n];
      IndexValue(prefix, key, k);
      var i :| IsLastWithKey(prefix, key, i) && key(prefix[i]) == k && Index(prefix, key)[k] == prefix[i];
      assert IsLastWithKey(records, key, i) by {
        forall j | i < j < |records| ensures key(records[j]) != key(records[i]) {
          if j < n {
            assert records[j] == prefix[j];
          }
        }
      }
    }
  }

  /** With unique keys every record is found under its own key. */
  lemma IndexUnique<K>(records: seq<MemberInfo>, key: MemberInfo -> K, i: int)
    requires UniqueKeys(records, key) && 0 <= i < |records|
    ensures key(records[i]) in Index(records, key) && Index(records, key)[key(records[i])] == records[i]
  {
  }

  /** Loading two lists one after the other gives the first table overwritten by the second. */
  lemma {:induction false} IndexAppend<K>(a: seq<MemberInfo>, b: seq<MemberInfo>, key: MemberInfo -> K)
    ensures Index(a + b, key) == Index(a, key) + Index(b, key)
  {
    if b == [] {
      assert a + b == a;
    } else {
      var n := |b| - 1;
      var x := b[n];
      assert (a + b)[..|a + b| - 1] == a + b[..n];
      IndexAppend(a, b[..n], key);
    }
  }

  /** The record list of the dataset; a missing (None) or empty one holds no record. */
  function Entries(dataset: Option<seq<MemberInfo>>): seq<MemberInfo>
  {
    if dataset.None? then [] else dataset.value
  }

  function UnknownNameMessage(name: string): string {
    "Member's name '" + name + "' does not exist."
  }

  function UnknownHomepageIdMessage(id: int): string {
    "Member's homepage id '" + IntToString(id) + "' does not exist."
  }

  function UnknownMessageIdMessage(id: int): string {
    "Member's message id '" + IntToString(id) + "' does not exist."
  }

  /** Each not-found message quotes the key it was given. */
  lemma UnknownKeyMessagesQuoteKey(name: string, id: int)
    ensures UnknownNameMessage(name)[15..15 + |name|] == name
    ensures UnknownHomepageIdMessage(id)[22..22 + |IntToString(id)|] == IntToString(id)
    ensures UnknownMessageIdMessage(id)[21..21 + |IntToString(id)|] == IntToString(id)
  {
  }

  /** The directory: three tables filled from one record list, read-only afterwards. */
  class MemberData {
    var byName: map<string, MemberInfo>
    var byHomepageId: map<int, MemberInfo>
    var byMessageId: map<int, MemberInfo>
    /** The records loaded so far, in order. */
    ghost var records: seq<MemberInfo>

    ghost predicate Valid()
      reads this
    {
      byName == Index(records, NameKey) &&
      byHomepageId == Index(records, HomepageKey) &&
      byMessageId == Index(records, MessageKey)
    }

    /** Creates the three empty tables and loads the dataset into them. */
    constructor (dataset: Option<seq<MemberInfo>>)
      ensures Valid() && records == Entries(dataset)
      ensures Entries(dataset) == [] ==> byName == map[] && byHomepageId == map[] && byMessageId == map[]
    {
      byName, byHomepageId, byMessageId := map[], map[], map[];
      records := [];
      new;
      LoadData(dataset);
    }

    /** Inserts every record of the dataset into the three tables, in list order. */
    method LoadData(dataset: Option<seq<MemberInfo>>)
      requires Valid()
      modifies this
      ensures Valid() && records == old(records) + Entries(dataset)
      ensures byName == old(byName) + Index(Entries(dataset), NameKey)
      ensures byHomepageId == old(byHomepageId) + Index(Entries(dataset), HomepageKey)
      ensures byMessageId == old(byMessageId) + Index(Entries(dataset), MessageKey)
    {
      var list := Entries(dataset);
      var i := 0;
      while i < |list|
        invariant 0 <= i <= |list|
        invariant Valid() && records == old(records) + list[..i]
      {
        var info := list[i];
        byName := byName[info.name := info];
        byHomepageId := byHomepageId[info.homepageId := info];
        byMessageId := byMessageId[info.messageId := info];
        assert (records + [info])[..|records|] == records;
        records := records + [info];
        assert list[..i + 1] == list[..i] + [info];
        i := i + 1;
      }
      assert list[..i] == list;
      IndexAppend(old(records), list, NameKey);
      IndexAppend(old(records), list, HomepageKey);
      IndexAppend(old(records), list, MessageKey);
    }

    /** `get_member_info`: the record with this English name, or ArgsException. */
    function GetMemberInfo(name: string): (r: Result<MemberInfo>)
      reads this
      requires Valid()
      ensures r.Ok? <==> exists i :: 0 <= i < |records| && records[i].name == name
      ensures r.Ok? ==> exists i :: IsLastWithKey(records, NameKey, i) && records[i].name == name && r.value == records[i]
      ensures r.Err? ==> r.error == Args(UnknownNameMessage(name))
    {
      IndexKeys(records, NameKey, name);
      if name !in byName then Err(Args(UnknownNameMessage(name)))
      else
        IndexValue(records, NameKey, name);
        Ok(byName[name])
    }

    /** `get_member_info_by_homepage_id`: the record with this homepage id, or ArgsException. */
    function GetMemberInfoByHomepageId(id: int): (r: Result<MemberInfo>)
      reads this
      requires Valid()
      ensures r.Ok? <==> exists i :: 0 <= i < |records| && records[i].homepageId == id
      ensures r.Ok? ==> exists i :: IsLastWithKey(records, HomepageKey, i) && records[i].homepageId == id && r.value == records[i]
      ensures r.Err? ==> r.error == Args(UnknownHomepageIdMessage(id))
    {
      IndexKeys(records, HomepageKey, id);
      if id !in byHomepageId then Err(Args(UnknownHomepageIdMessage(id)))
      else
        IndexValue(records, HomepageKey, id);
        Ok(byHomepageId[id])
    }

    /** `get_member_info_by_message_id`: the record with this message id, or ArgsException. */
    function GetMemberInfoByMessageId(id: int): (r: Result<MemberInfo>)
      reads this
      requires Valid()
      ensures r.Ok? <==> exists i :: 0 <= i < |records| && records[i].messageId == id
      ensures r.Ok? ==> exists i :: IsLastWithKey(records, MessageKey, i) && records[i].messageId == id && r.value == records[i]
      ensures r.Err? ==> r.error == Args(UnknownMessageIdMessage(id))
    {
      IndexKeys(records, MessageKey, id);
      if id !in byMessageId then Err(Args(UnknownMessageIdMessage(id)))
      else
        IndexValue(records, MessageKey, id);
        Ok(byMessageId[id])
    }

    /** With unique keys, each record comes back from all three lookups by its own keys. */
    lemma LookupRoundTrip(i: int)
      requires Valid() && 0 <= i < |records|
      requires UniqueKeys(records, NameKey) && UniqueKeys(records, HomepageKey) && UniqueKeys(records, MessageKey)
      ensures GetMemberInfo(records[i].name) == Ok(records[i])
      ensures GetMemberInfoByHomepageId(records[i].homepageId) == Ok(records[i])
      ensures GetMemberInfoByMessageId(records[i].messageId) == Ok(records[i])
    {
      IndexUnique(records, NameKey, i);
      IndexUnique(records, HomepageKey, i);
      IndexUnique(records, MessageKey, i);
    }

    /** With unique keys, the three tables agree: a member found by name is
        found again, as the same record, by its homepage id and its message id. */
    lemma KeysAgree(name: string)
      requires Valid()
      requires UniqueKeys(records, NameKey) && UniqueKeys(records, HomepageKey) && UniqueKeys(records, MessageKey)
      ensures GetMemberInfo(name).Ok? ==>
        GetMemberInfoByHomepageId(GetMemberInfo(name).value.homepageId) == GetMemberInfo(name) &&
        GetMemberInfoByMessageId(GetMemberInfo(name).value.messageId) == GetMemberInfo(name)
    {
    }
  }
}
