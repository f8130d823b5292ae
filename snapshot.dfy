/**
 * What addon.cpp publishes for the PVR callbacks once a channel list is
 * known, whether it was built from the live catalogue or seeded from the
 * cache: the channel list, the uid-to-stream-id map, the members of each
 * channel group and the order of the group names.
 *
 * The source keeps the category table and the uid map in
 * `std::unordered_map`s filled with `emplace`, which never overwrites an
 * existing key; here each is kept as its entries in insertion order, so
 * the first usable entry for a key is the one that counts.
 */
module Snapshots {
  import opened Text
  import opened Catalog

  /** `kodi::addon::PVRChannel`, as far as the add-on sets it; `IsRadio` is always false. */
  datatype PvrChannel = PvrChannel(uniqueId: u32, name: string, number: int, iconPath: string)

  /** `GroupMember`. */
  datatype GroupMember = GroupMember(channelUid: u32, channelNumber: u32, subChannelNumber: u32)

  /** The published state: channels, uid map, group members and group order. */
  datatype Snapshot = Snapshot(
    channels: seq<PvrChannel>,
    uidToStreamId: map<u32, int>,
    groupMembers: map<string, seq<GroupMember>>,
    groupNamesOrdered: seq<string>)

  // ---------------------------------------------------------------------------
  // categoryIdToName
  // ---------------------------------------------------------------------------

  /** A category that may enter the table: a positive id and a name. */
  predicate Usable(c: LiveCategory) { c.id > 0 && c.name != [] }

  /** `find` in the table: the name filed under `id`, if any. */
  function NameOf(table: seq<LiveCategory>, id: int): (r: Option<string>)
    ensures r.Some? <==> exists i :: 0 <= i < |table| && table[i].id == id
    ensures r.Some? ==> exists i :: 0 <= i < |table| && table[i] == LiveCategory(id, r.value)
    decreases |table|
  {
    if table == [] then None
    else
      var prior := NameOf(table[..|table| - 1], id);
      var last := table[|table| - 1];
      if prior.Some? then
        prior
      else if last.id == id then
        Some(last.name)
      else
        None
  }

  /**
   * `categoryIdToName`: every usable category is `emplace`d in turn, so a
   * later category with an id already present is ignored.
   */
  function NameTable(cats: seq<LiveCategory>): (t: seq<LiveCategory>)
    ensures forall i :: 0 <= i < |t| ==> Usable(t[i])
    ensures forall i, j :: 0 <= i < j < |t| ==> t[i].id != t[j].id
    decreases |cats|
  {
    if cats == [] then []
    else
      var t := NameTable(cats[..|cats| - 1]);
      var c := cats[|cats| - 1];
      if Usable(c) && NameOf(t, c.id).None? then t + [c] else t
  }

  /** `cats[j]` is the first usable category with id `id`. */
  predicate FirstUsable(cats: seq<LiveCategory>, id: int, j: int) {
    0 <= j < |cats| && cats[j].id == id && Usable(cats[j]) &&
    forall k :: 0 <= k < j ==> !(cats[k].id == id && Usable(cats[k]))
  }

  /** An id of a usable category is in the table. */
  lemma {:induction false} NameTableComplete(cats: seq<LiveCategory>, k: nat)
    requires k < |cats| && Usable(cats[k])
    ensures NameOf(NameTable(cats), cats[k].id).Some?
    decreases |cats|
  {
    var n := |cats|;
    var init := cats[..n - 1];
    var t := NameTable(init);
    if k < n - 1 {
      assert init[k] == cats[k];
      NameTableComplete(init, k);
      var i :| 0 <= i < |t| && t[i].id == cats[k].id;
      if NameTable(cats) != t {
        assert NameTable(cats)[i] == t[i];
      }
    } else if NameOf(t, cats[k].id).None? {
      assert NameTable(cats)[|t|] == cats[k];
    }
  }

  /**
   * What the table gives for an id is the name of the first usable
   * category with that id, and there is none when no usable category has
   * it.
   */
  lemma {:induction false} NameTableSound(cats: seq<LiveCategory>, id: int)
    requires NameOf(NameTable(cats), id).Some?
    ensures exists j :: FirstUsable(cats, id, j) && cats[j].name == NameOf(NameTable(cats), id).value
    decreases |cats|
  {
    var n := |cats|;
    var init := cats[..n - 1];
    var t := NameTable(init);
    NameOfPrefix(t, cats[n - 1], id);
    if NameOf(t, id).Some? {
      NameTableSound(init, id);
      var j :| FirstUsable(init, id, j) && init[j].name == NameOf(t, id).value;
      FirstUsableExtends(cats, id, j);
    } else {
      NewEntryIsFirst(cats, id);
    }
  }

  lemma FirstUsableExtends(cats: seq<LiveCategory>, id: int, j: nat)
    requires cats != [] && FirstUsable(cats[..|cats| - 1], id, j)
    ensures FirstUsable(cats, id, j) && cats[j] == cats[..|cats| - 1][j]
  {
    var init := cats[..|cats| - 1];
    forall k | 0 <= k < j ensures !(cats[k].id == id && Usable(cats[k])) {
      assert cats[k] == init[k];
    }
  }

  lemma NewEntryIsFirst(cats: seq<LiveCategory>, id: int)
    requires cats != []
    requires NameOf(NameTable(cats[..|cats| - 1]), id).None?
    requires NameOf(NameTable(cats), id).Some?
    ensures FirstUsable(cats, id, |cats| - 1) && cats[|cats| - 1].name == NameOf(NameTable(cats), id).value
  {
    var n := |cats|;
    var init := cats[..n - 1];
    var t := NameTable(init);
    var c := cats[n - 1];
    assert Usable(c) && NameOf(t, c.id).None? by {
      assert NameTable(cats) == (if Usable(c) && NameOf(t, c.id).None? then t + [c] else t);
    }
    NameOfPrefix(t, c, id);
    forall k | 0 <= k < n - 1 ensures !(cats[k].id == id && Usable(cats[k])) {
      assert cats[k] == init[k];
      if cats[k].id == id && Usable(cats[k]) {
        NameTableComplete(init, k);
      }
    }
  }

  /** Appending an entry does not change what the earlier entries give. */
  lemma NameOfPrefix(t: seq<LiveCategory>, c: LiveCategory, id: int)
    ensures NameOf(t + [c], id) == (if NameOf(t, id).Some? then NameOf(t, id) else if c.id == id then Some(c.name) else None)
  {
    assert (t + [c])[..|t|] == t;
  }

  // ---------------------------------------------------------------------------
  // The category order of the cache: std::sort by id
  // ---------------------------------------------------------------------------

  predicate SortedById(t: seq<LiveCategory>) {
    forall i, j :: 0 <= i < j < |t| ==> t[i].id <= t[j].id
  }

  function InsertById(sorted: seq<LiveCategory>, c: LiveCategory): (r: seq<LiveCategory>)
    ensures multiset(r) == multiset(sorted) + multiset{c}
    ensures |r| == |sorted| + 1
    decreases |sorted|
  {
    if sorted == [] then [c]
    else if c.id < sorted[0].id then [c] + sorted
    else
      var r := [sorted[0]] + InsertById(sorted[1..], c);
      assert sorted == [sorted[0]] + sorted[1..];
      r
  }

  lemma {:induction false} InsertKeepsSorted(sorted: seq<LiveCategory>, c: LiveCategory)
    requires SortedById(sorted)
    ensures SortedById(InsertById(sorted, c))
    decreases |sorted|
  {
    if sorted != [] && c.id >= sorted[0].id {
      var rest := InsertById(sorted[1..], c);
      InsertKeepsSorted(sorted[1..], c);
      HeadBelowInserted(sorted, c);
      ConsSorted(sorted[0], rest);
    }
  }

  /** The head of a sorted table is at most every entry of its tail with `c` inserted. */
  lemma HeadBelowInserted(sorted: seq<LiveCategory>, c: LiveCategory)
    requires SortedById(sorted) && sorted != [] && c.id >= sorted[0].id
    ensures forall j :: 0 <= j < |InsertById(sorted[1..], c)| ==> sorted[0].id <= InsertById(sorted[1..], c)[j].id
  {
    var rest := InsertById(sorted[1..], c);
    forall j | 0 <= j < |rest| ensures sorted[0].id <= rest[j].id {
      assert rest[j] in multiset(rest);
      assert rest[j] in multiset(sorted[1..]) + multiset{c};
      if rest[j] != c {
        assert rest[j] in sorted[1..];
        var k :| 0 <= k < |sorted[1..]| && sorted[1..][k] == rest[j];
        assert sorted[k + 1] == rest[j];
      }
    }
  }

  /** An entry at most every entry of a sorted table, put in front, keeps it sorted. */
  lemma ConsSorted(x: LiveCategory, rest: seq<LiveCategory>)
    requires SortedById(rest) && forall j :: 0 <= j < |rest| ==> x.id <= rest[j].id
    ensures SortedById([x] + rest)
  {
    var r := [x] + rest;
    forall i, j | 0 <= i < j < |r| ensures r[i].id <= r[j].id {
      if i > 0 {
        assert r[i] == rest[i - 1] && r[j] == rest[j - 1];
      } else {
        assert r[j] == rest[j - 1];
      }
    }
  }

  /** `std::sort` of the table's entries by id (the ids are distinct, so the order is unique). */
  function SortById(t: seq<LiveCategory>): (r: seq<LiveCategory>)
    decreases |t|
  {
    if t == [] then [] else InsertById(SortById(t[..|t| - 1]), t[|t| - 1])
  }

  /** The sort orders the entries by id and loses or adds none. */
  lemma {:induction false} SortByIdSpec(t: seq<LiveCategory>)
    ensures SortedById(SortById(t))
    ensures multiset(SortById(t)) == multiset(t)
    decreases |t|
  {
    if t != [] {
      var init := t[..|t| - 1];
      SortByIdSpec(init);
      InsertKeepsSorted(SortById(init), t[|t| - 1]);
      assert t == init + [t[|t| - 1]];
    }
  }

  // ---------------------------------------------------------------------------
  // Group members
  // ---------------------------------------------------------------------------

  function MembersOf(m: map<string, seq<GroupMember>>, name: string): seq<GroupMember> {
    if name in m then m[name] else []
  }

  /** The member entry for a channel: its uid and its number cast to `unsigned int`. */
  function MemberFor(ch: PvrChannel): GroupMember {
    GroupMember(ch.uniqueId, U32Of(ch.number), 0)
  }

  /**
   * `groupMembers`: each channel, in list order, is appended to the group
   * named by the table entry of its category id; a channel whose category
   * id is not in the table joins no group.
   */
  function GroupMembersOf(channels: seq<PvrChannel>, catIds: seq<int>, table: seq<LiveCategory>): (m: map<string, seq<GroupMember>>)
    requires |channels| == |catIds|
    ensures forall name :: name in m ==> m[name] != []
    decreases |channels|
  {
    if channels == [] then map[]
    else
      var n := |channels|;
      var m := GroupMembersOf(channels[..n - 1], catIds[..n - 1], table);
      match NameOf(table, catIds[n - 1])
      case None => m
      case Some(name) => m[name := MembersOf(m, name) + [MemberFor(channels[n - 1])]]
  }

  /**
   * A group holds exactly the channels whose category id the table maps to
   * its name, each once per occurrence, in channel-list order.
   */
  lemma {:induction false} GroupMembersMeaning(channels: seq<PvrChannel>, catIds: seq<int>, table: seq<LiveCategory>, name: string)
    requires |channels| == |catIds|
    ensures MembersOf(GroupMembersOf(channels, catIds, table), name) ==
            Members(channels, catIds, table, name)
    decreases |channels|
  {
    if channels != [] {
      var n := |channels|;
      GroupMembersMeaning(channels[..n - 1], catIds[..n - 1], table, name);
    }
  }

  /** The members of group `name`, read straight off the channel list. */
  function Members(channels: seq<PvrChannel>, catIds: seq<int>, table: seq<LiveCategory>, name: string): (r: seq<GroupMember>)
    requires |channels| == |catIds|
    ensures |r| <= |channels|
    decreases |channels|
  {
    if channels == [] then []
    else
      var n := |channels|;
      Members(channels[..n - 1], catIds[..n - 1], table, name) +
        (if NameOf(table, catIds[n - 1]) == Some(name) then [MemberFor(channels[n - 1])] else [])
  }

  /** Every member of a group is a channel of the list whose category maps to the group. */
  lemma {:induction false} MembersAreChannels(channels: seq<PvrChannel>, catIds: seq<int>, table: seq<LiveCategory>, name: string, g: GroupMember)
    requires |channels| == |catIds|
    requires g in Members(channels, catIds, table, name)
    ensures exists i :: 0 <= i < |channels| && NameOf(table, catIds[i]) == Some(name) && g == MemberFor(channels[i])
    decreases |channels|
  {
    var n := |channels|;
    var init, ids := channels[..n - 1], catIds[..n - 1];
    if g in Members(init, ids, table, name) {
      MembersAreChannels(init, ids, table, name, g);
      var i :| 0 <= i < |init| && NameOf(table, ids[i]) == Some(name) && g == MemberFor(init[i]);
      assert channels[i] == init[i] && catIds[i] == ids[i];
    }
  }

  /** Every channel whose category maps to a group is a member of it. */
  lemma {:induction false} ChannelsAreMembers(channels: seq<PvrChannel>, catIds: seq<int>, table: seq<LiveCategory>, i: nat)
    requires |channels| == |catIds| && i < |channels| && NameOf(table, catIds[i]).Some?
    ensures MemberFor(channels[i]) in Members(channels, catIds, table, NameOf(table, catIds[i]).value)
    decreases |channels|
  {
    var n := |channels|;
    if i < n - 1 {
      var init, ids := channels[..n - 1], catIds[..n - 1];
      assert init[i] == channels[i] && ids[i] == catIds[i];
      ChannelsAreMembers(init, ids, table, i);
    }
  }

  // ---------------------------------------------------------------------------
  // Group order
  // ---------------------------------------------------------------------------

  predicate HasMembers(members: map<string, seq<GroupMember>>, name: string) {
    name in members && members[name] != []
  }

  /** The cache's group order: the sorted table's names that have members. */
  function SortedGroupNames(sorted: seq<LiveCategory>, members: map<string, seq<GroupMember>>): (r: seq<string>)
    ensures forall i :: 0 <= i < |r| ==> HasMembers(members, r[i])
    ensures |r| <= |sorted|
    decreases |sorted|
  {
    if sorted == [] then []
    else
      var n := |sorted|;
      SortedGroupNames(sorted[..n - 1], members) +
        (if HasMembers(members, sorted[n - 1].name) then [sorted[n - 1].name] else [])
  }

  /**
   * Every table entry whose name has members is listed; so with the
   * `ensures` of `SortedGroupNames`, a name is listed exactly when its
   * group is non-empty.
   */
  lemma {:induction false} SortedGroupNamesComplete(sorted: seq<LiveCategory>, members: map<string, seq<GroupMember>>, k: nat)
    requires k < |sorted| && HasMembers(members, sorted[k].name)
    ensures sorted[k].name in SortedGroupNames(sorted, members)
    decreases |sorted|
  {
    var n := |sorted|;
    if k < n - 1 {
      var init := sorted[..n - 1];
      assert init[k] == sorted[k];
      SortedGroupNamesComplete(init, members, k);
    }
  }

  /** Each listed name comes from an entry; later entries come later in the list. */
  lemma {:induction false} SortedGroupNamesOrder(sorted: seq<LiveCategory>, members: map<string, seq<GroupMember>>, a: nat, b: nat)
    requires a < b < |SortedGroupNames(sorted, members)|
    ensures exists i, j :: 0 <= i < j < |sorted| &&
              sorted[i].name == SortedGroupNames(sorted, members)[a] && sorted[j].name == SortedGroupNames(sorted, members)[b]
    decreases |sorted|
  {
    var n := |sorted|;
    var init := sorted[..n - 1];
    var prev := SortedGroupNames(init, members);
    var r := SortedGroupNames(sorted, members);
    if b < |prev| {
      SortedGroupNamesOrder(init, members, a, b);
      var i, j :| 0 <= i < j < |init| && init[i].name == prev[a] && init[j].name == prev[b];
      assert r[a] == prev[a] && r[b] == prev[b];
      assert sorted[i] == init[i] && sorted[j] == init[j];
    } else {
      assert r[a] == prev[a];
      GroupNameFrom(init, members, a);
      var i :| 0 <= i < |init| && init[i].name == prev[a];
      assert sorted[i] == init[i];
    }
  }

  lemma {:induction false} GroupNameFrom(sorted: seq<LiveCategory>, members: map<string, seq<GroupMember>>, a: nat)
    requires a < |SortedGroupNames(sorted, members)|
    ensures exists i :: 0 <= i < |sorted| && sorted[i].name == SortedGroupNames(sorted, members)[a]
    decreases |sorted|
  {
    var n := |sorted|;
    var init := sorted[..n - 1];
    var prev := SortedGroupNames(init, members);
    if a < |prev| {
      GroupNameFrom(init, members, a);
      var i :| 0 <= i < |init| && init[i].name == prev[a];
      assert sorted[i] == init[i];
    }
  }

  /**
   * The live build's group order: the categories in reply order, each
   * giving the table's name for its id when that group has members (a
   * category id listed twice gives its name twice).
   */
  function LiveGroupNames(categories: seq<LiveCategory>, table: seq<LiveCategory>, members: map<string, seq<GroupMember>>): (r: seq<string>)
    ensures forall i :: 0 <= i < |r| ==> HasMembers(members, r[i])
    decreases |categories|
  {
    if categories == [] then []
    else
      var n := |categories|;
      var name := NameOf(table, categories[n - 1].id);
      LiveGroupNames(categories[..n - 1], table, members) +
        (if name.Some? && HasMembers(members, name.value) then [name.value] else [])
  }

  /** Every category whose group has members contributes its group name. */
  lemma {:induction false} LiveGroupNamesComplete(categories: seq<LiveCategory>, table: seq<LiveCategory>, members: map<string, seq<GroupMember>>, k: nat)
    requires k < |categories| && NameOf(table, categories[k].id).Some?
    requires HasMembers(members, NameOf(table, categories[k].id).value)
    ensures NameOf(table, categories[k].id).value in LiveGroupNames(categories, table, members)
    decreases |categories|
  {
    var n := |categories|;
    if k < n - 1 {
      var init := categories[..n - 1];
      assert init[k] == categories[k];
      LiveGroupNamesComplete(init, table, members, k);
    }
  }

  // ---------------------------------------------------------------------------
  // uidToStreamId
  // ---------------------------------------------------------------------------

  /** `uidToStreamId`: each `(uid, stream id)` pair `emplace`d in turn. */
  function UidMap(entries: seq<(u32, int)>): (m: map<u32, int>)
    ensures forall u :: u in m <==> exists i :: 0 <= i < |entries| && entries[i].0 == u
    decreases |entries|
  {
    if entries == [] then map[]
    else
      var n := |entries|;
      var m := UidMap(entries[..n - 1]);
      var e := entries[n - 1];
      assert forall i :: 0 <= i < n - 1 ==> entries[..n - 1][i] == entries[i];
      if e.0 in m then m else m[e.0 := e.1]
  }

  /** The first entry for a uid is the one the map keeps. */
  lemma {:induction false} UidMapFirstWins(entries: seq<(u32, int)>, i: nat)
    requires i < |entries|
    requires forall k :: 0 <= k < i ==> entries[k].0 != entries[i].0
    ensures UidMap(entries)[entries[i].0] == entries[i].1
    decreases |entries|
  {
    var n := |entries|;
    if i < n - 1 {
      var init := entries[..n - 1];
      assert init[i] == entries[i];
      UidMapFirstWins(init, i);
    } else {
      var init := entries[..n - 1];
      assert forall k :: 0 <= k < |init| ==> init[k] == entries[k];
    }
  }
}
