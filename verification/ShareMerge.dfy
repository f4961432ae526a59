/** Folding the rows that share one folder into the oldest of them. */
module ShareMerge {
  import opened TextLines
  import opened Shares

  function ListOf(share: Share): List<Member> {
    MemberList(share.members, share.username)
  }

  // ---------------------------------------------------------------- members

  function Raised(members: List<Member>, extra: Member): List<Member> {
    match members
    case Nil => Nil
    case Cons(m, rest) =>
      Cons(if m.username == extra.username then m.(readOnly := m.readOnly && extra.readOnly) else m, Raised(rest, extra))
  }

  function WithExtra(members: List<Member>, extra: Member): List<Member> {
    if Mounts(members, extra.username) then Raised(members, extra) else Append(members, Cons(extra, Nil))
  }

  function WithAll(members: List<Member>, extras: List<Member>): List<Member>
    decreases extras
  {
    match extras
    case Nil => members
    case Cons(extra, rest) => WithAll(WithExtra(members, extra), rest)
  }

  lemma {:induction false} RaisedMeans(members: List<Member>, extra: Member, name: Text)
    ensures Mounts(Raised(members, extra), name) <==> Mounts(members, name)
    ensures Writes(Raised(members, extra), name)
       <==> Writes(members, name) || (Mounts(members, name) && extra.username == name && !extra.readOnly)
    ensures ArePlain(members) ==> ArePlain(Raised(members, extra))
  {
    if members.Cons? {
      RaisedMeans(members.tail, extra, name);
    }
  }

  lemma {:induction false} AppendedMeans(members: List<Member>, extra: Member, name: Text)
    ensures Mounts(Append(members, Cons(extra, Nil)), name) <==> Mounts(members, name) || extra.username == name
    ensures Writes(Append(members, Cons(extra, Nil)), name)
       <==> Writes(members, name) || (extra.username == name && !extra.readOnly)
    ensures ArePlain(members) && IsPlainName(extra.username) ==> ArePlain(Append(members, Cons(extra, Nil)))
  {
    if members.Cons? {
      AppendedMeans(members.tail, extra, name);
    }
  }

  /** Adding members adds what they may do, and takes nothing from those that are there. */
  lemma {:induction false} WithAllMeans(members: List<Member>, extras: List<Member>, name: Text)
    ensures Mounts(WithAll(members, extras), name) <==> Mounts(members, name) || Mounts(extras, name)
    ensures Writes(WithAll(members, extras), name) <==> Writes(members, name) || Writes(extras, name)
    ensures ArePlain(members) && ArePlain(extras) ==> ArePlain(WithAll(members, extras))
    ensures WithAll(members, extras).Nil? <==> members.Nil? && extras.Nil?
    decreases extras
  {
    if extras.Cons? {
      RaisedMeans(members, extras.head, name);
      AppendedMeans(members, extras.head, name);
      WithAllMeans(WithExtra(members, extras.head), extras.tail, name);
    }
  }

  // ---------------------------------------------------------------- two rows

  /** The oldest row of a folder with a newer one folded into it. */
  function Merged(first: Share, share: Share): Share {
    var owner := if first.username == [] then share.username else first.username;
    first.(username := owner, members := FormatMembers(WithAll(ListOf(first), ListOf(share))),
           anonymous := owner == [], timeMachine := first.timeMachine || share.timeMachine)
  }

  lemma {:induction false} MergedMeans(first: Share, share: Share, name: Text)
    requires ArePlain(ListOf(first)) && ArePlain(ListOf(share))
    ensures Mounts(ListOf(Merged(first, share)), name) <==> Mounts(ListOf(first), name) || Mounts(ListOf(share), name)
    ensures Writes(ListOf(Merged(first, share)), name) <==> Writes(ListOf(first), name) || Writes(ListOf(share), name)
  {
    WithAllMeans(ListOf(first), ListOf(share), name);
    MembersRoundTrip(WithAll(ListOf(first), ListOf(share)), Merged(first, share).username);
  }

  /** What a merged row lists are names that the column can hold. */
  lemma {:induction false} MergedIsPlain(first: Share, share: Share)
    ensures ArePlain(ListOf(Merged(first, share)))
  {
    var all, owner := WithAll(ListOf(first), ListOf(share)), Merged(first, share).username;
    WithAllMeans(ListOf(first), ListOf(share), []);
    MemberListIsPlain(FormatMembers(all), owner);
    if all.Cons? {
      FormattedHasField(all);
    } else {
      assert owner == [];
    }
  }

  lemma {:induction false} PlainMounts(members: List<Member>, name: Text)
    requires ArePlain(members) && Mounts(members, name)
    ensures IsPlainName(name)
  {
    if members.head.username != name {
      PlainMounts(members.tail, name);
    }
  }

  // ---------------------------------------------------------------- all rows

  /** Where the row of a folder is among those kept; past the end when it has none. */
  function RowOf(kept: seq<Share>, path: Text): (i: nat)
    ensures i <= |kept| && (i < |kept| ==> kept[i].path == path)
    ensures forall j :: 0 <= j < i ==> kept[j].path != path
  {
    if kept == [] || kept[0].path == path then 0 else 1 + RowOf(kept[1..], path)
  }

  /** The rows kept, with one more: a row of its own, or folded into the one its folder has. */
  function Added(kept: seq<Share>, share: Share): seq<Share> {
    var i := RowOf(kept, share.path);
    if i == |kept| then kept + [share] else kept[i := Merged(kept[i], share)]
  }

  /** The rows that stay, and the ids of those folded away. */
  function Folded(shares: seq<Share>): (seq<Share>, seq<nat>) {
    if shares == [] then ([], [])
    else
      var (kept, removed) := Folded(shares[..|shares| - 1]);
      var share := shares[|shares| - 1];
      (Added(kept, share), if RowOf(kept, share.path) == |kept| then removed else removed + [share.id])
  }

  /** The body of the loop for a row whose folder has one. */
  method MergeRow(row: Share, share: Share) returns (first: Share)
    ensures first == Merged(row, share)
  {
    first := row;
    var members, extras := ListOf(first), ListOf(share);
    while extras.Cons?
      invariant WithAll(members, extras) == WithAll(ListOf(row), ListOf(share))
      decreases extras
    {
      members, extras := WithExtra(members, extras.head), extras.tail;
    }
    if first.username == [] {
      first := first.(username := share.username);
    }
    first := first.(members := FormatMembers(members), anonymous := first.username == [],
                    timeMachine := first.timeMachine || share.timeMachine);
  }

  /** Folds the rows of one folder into its first, which gains what the others give. */
  method MergeDuplicateShares(shares: seq<Share>) returns (kept: seq<Share>, removed: seq<nat>)
    ensures (kept, removed) == Folded(shares)
  {
    kept, removed := [], [];
    var index: map<Text, nat> := map[];
    for n := 0 to |shares|
      invariant (kept, removed) == Folded(shares[..n])
      invariant forall i :: 0 <= i < |kept| ==> kept[i].path in index && index[kept[i].path] == i
      invariant forall path :: path in index ==> index[path] < |kept| && kept[index[path]].path == path
    {
      var share := shares[n];
      assert shares[..n + 1][..n] == shares[..n];
      if share.path !in index {
        index := index[share.path := |kept|];
        kept := kept + [share];
      } else {
        var i := index[share.path];
        assert RowOf(kept, share.path) == i;
        var first := MergeRow(kept[i], share);
        kept := kept[i := first];
        removed := removed + [share.id];
      }
    }
    assert shares[..|shares|] == shares;
  }

  // ---------------------------------------------------------------- which rows stay

  predicate IsFirst(shares: seq<Share>, i: nat)
    requires i < |shares|
  {
    forall j :: 0 <= j < i ==> shares[j].path != shares[i].path
  }

  predicate Increasing(indices: seq<nat>) {
    forall i, j :: 0 <= i < j < |indices| ==> indices[i] < indices[j]
  }

  /** The places of the rows that are the first of their folder, or of those that are not. */
  function Places(shares: seq<Share>, first: bool): (places: seq<nat>)
    ensures Increasing(places)
    ensures forall i :: i in places <==> 0 <= i < |shares| && IsFirst(shares, i) == first
  {
    if shares == [] then []
    else
      var n := |shares| - 1;
      var before := Places(shares[..n], first);
      assert forall i :: 0 <= i < n ==> IsFirst(shares[..n], i) == IsFirst(shares, i);
      assert forall k :: 0 <= k < |before| ==> before[k] in before;
      if IsFirst(shares, n) == first then before + [n] else before
  }

  ghost predicate RowsAt(shares: seq<Share>, places: seq<nat>, kept: seq<Share>) {
    && |kept| == |places|
    && forall k :: 0 <= k < |kept| ==>
      places[k] < |shares| && kept[k].id == shares[places[k]].id && kept[k].path == shares[places[k]].path
  }

  ghost predicate IdsAt(shares: seq<Share>, places: seq<nat>, ids: seq<nat>) {
    |ids| == |places| && forall k :: 0 <= k < |ids| ==> places[k] < |shares| && ids[k] == shares[places[k]].id
  }

  ghost predicate OneRowEach(kept: seq<Share>) {
    forall i, j :: 0 <= i < j < |kept| ==> kept[i].path != kept[j].path
  }

  lemma {:induction false} FirstOf(shares: seq<Share>, i: nat)
    requires i < |shares|
    ensures exists p :: 0 <= p <= i && shares[p].path == shares[i].path && IsFirst(shares, p)
  {
    if !IsFirst(shares, i) {
      var j :| 0 <= j < i && shares[j].path == shares[i].path;
      FirstOf(shares, j);
    } else {
      assert 0 <= i <= i;
    }
  }

  predicate HasNone(shares: seq<Share>, path: Text) {
    forall i :: 0 <= i < |shares| ==> shares[i].path != path
  }

  lemma {:induction false} FirstHasNoRow(shares: seq<Share>, kept: seq<Share>, path: Text)
    requires RowsAt(shares, Places(shares, true), kept)
    ensures RowOf(kept, path) == |kept| <==> HasNone(shares, path)
  {
    var places := Places(shares, true);
    forall i | 0 <= i < |shares| && shares[i].path == path
      ensures RowOf(kept, path) < |kept|
    {
      FirstOf(shares, i);
      var p :| 0 <= p <= i && shares[p].path == path && IsFirst(shares, p);
      assert p in places;
      var k :| 0 <= k < |places| && places[k] == p;
      assert kept[k].path == path;
    }
    var i := RowOf(kept, path);
    if i < |kept| {
      assert shares[places[i]].path == path;
    }
  }

  lemma {:induction false} PlacesSnoc(shares: seq<Share>, share: Share, first: bool)
    ensures Places(shares + [share], first)
         == if HasNone(shares, share.path) == first then Places(shares, first) + [|shares|] else Places(shares, first)
  {
    var all := shares + [share];
    assert all[..|shares|] == shares && all[|shares|] == share;
    assert IsFirst(all, |shares|) <==> HasNone(shares, share.path);
  }

  lemma {:induction false} RowsGrow(shares: seq<Share>, share: Share, places: seq<nat>, kept: seq<Share>)
    requires RowsAt(shares, places, kept) && OneRowEach(kept)
    ensures RowsAt(shares + [share], if RowOf(kept, share.path) == |kept| then places + [|shares|] else places, Added(kept, share))
    ensures OneRowEach(Added(kept, share))
  {
    assert forall k :: 0 <= k < |shares| ==> (shares + [share])[k] == shares[k];
  }

  lemma {:induction false} IdsGrow(shares: seq<Share>, share: Share, places: seq<nat>, ids: seq<nat>)
    requires IdsAt(shares, places, ids)
    ensures IdsAt(shares + [share], places, ids) && IdsAt(shares + [share], places + [|shares|], ids + [share.id])
  {
    assert forall k :: 0 <= k < |shares| ==> (shares + [share])[k] == shares[k];
  }

  ghost predicate Partitions(shares: seq<Share>, kept: seq<Share>, removed: seq<nat>) {
    && RowsAt(shares, Places(shares, true), kept) && OneRowEach(kept)
    && IdsAt(shares, Places(shares, false), removed)
  }

  lemma {:induction false} PartitionGrows(shares: seq<Share>, share: Share, kept: seq<Share>, removed: seq<nat>, all: seq<Share>)
    requires Partitions(shares, kept, removed) && all == shares + [share]
    ensures Partitions(all, Added(kept, share), if RowOf(kept, share.path) == |kept| then removed else removed + [share.id])
  {
    FirstHasNoRow(shares, kept, share.path);
    RowsGrow(shares, share, Places(shares, true), kept);
    IdsGrow(shares, share, Places(shares, false), removed);
    PlacesSnoc(shares, share, true);
    PlacesSnoc(shares, share, false);
  }

  /** Each row is kept, with its id and folder, when it is the first of its folder, and folded away when it is
      not. Both are in the order of the rows, and no folder keeps two. */
  lemma {:induction false} FoldPartitions(shares: seq<Share>)
    ensures Partitions(shares, Folded(shares).0, Folded(shares).1)
  {
    if shares != [] {
      var before, share := shares[..|shares| - 1], shares[|shares| - 1];
      FoldPartitions(before);
      PartitionGrows(before, share, Folded(before).0, Folded(before).1, shares);
    }
  }

  // ---------------------------------------------------------------- what a kept row gives

  /** The folder has two rows at the least. */
  ghost predicate HasTwo(shares: seq<Share>, path: Text) {
    exists i, j :: 0 <= i < j < |shares| && shares[i].path == path && shares[j].path == path
  }

  /** The column can hold what each row of the folder lists: a row that lists nobody names an account with a plain
      name, or none. */
  ghost predicate AllHeld(shares: seq<Share>, path: Text) {
    forall i :: 0 <= i < |shares| && shares[i].path == path ==>
      ParsedMembers(Fields(shares[i].members)).Cons? || IsPlainName(shares[i].username)
  }

  /** What some row of the folder gives. */
  ghost predicate SomeMounts(shares: seq<Share>, path: Text, name: Text) {
    exists i :: 0 <= i < |shares| && shares[i].path == path && Mounts(ListOf(shares[i]), name)
  }

  ghost predicate SomeWrites(shares: seq<Share>, path: Text, name: Text) {
    exists i :: 0 <= i < |shares| && shares[i].path == path && Writes(ListOf(shares[i]), name)
  }

  ghost predicate SomeTimeMachine(shares: seq<Share>, path: Text) {
    exists i :: 0 <= i < |shares| && shares[i].path == path && shares[i].timeMachine
  }

  /** The first account that owns the folder. */
  function OwnerOf(shares: seq<Share>, path: Text): Text {
    if shares == [] then []
    else if shares[0].path == path && shares[0].username != [] then shares[0].username
    else OwnerOf(shares[1..], path)
  }

  lemma {:induction false} OwnerOfSnoc(shares: seq<Share>, share: Share, path: Text)
    ensures OwnerOf(shares + [share], path)
         == if OwnerOf(shares, path) == [] && share.path == path then share.username else OwnerOf(shares, path)
  {
    if shares == [] {
      assert (shares + [share])[1..] == [];
    } else {
      assert (shares + [share])[1..] == shares[1..] + [share];
      OwnerOfSnoc(shares[1..], share, path);
    }
  }

  lemma {:induction false} SomeSnoc(shares: seq<Share>, share: Share, path: Text, name: Text)
    ensures SomeMounts(shares + [share], path, name)
       <==> SomeMounts(shares, path, name) || (share.path == path && Mounts(ListOf(share), name))
    ensures SomeWrites(shares + [share], path, name)
       <==> SomeWrites(shares, path, name) || (share.path == path && Writes(ListOf(share), name))
    ensures SomeTimeMachine(shares + [share], path)
       <==> SomeTimeMachine(shares, path) || (share.path == path && share.timeMachine)
  {
    var all := shares + [share];
    assert all[|shares|] == share && forall i :: 0 <= i < |shares| ==> all[i] == shares[i];
  }

  /** A kept row gives a name what some row of its folder gave it. */
  ghost predicate GivesUnion(shares: seq<Share>, row: Share, name: Text) {
    && (Mounts(ListOf(row), name) <==> SomeMounts(shares, row.path, name))
    && (Writes(ListOf(row), name) <==> SomeWrites(shares, row.path, name))
  }

  ghost predicate KeepsRest(shares: seq<Share>, row: Share) {
    (row.timeMachine <==> SomeTimeMachine(shares, row.path)) && row.username == OwnerOf(shares, row.path)
  }

  lemma {:induction false} NoneGives(shares: seq<Share>, path: Text, name: Text)
    requires forall i :: 0 <= i < |shares| ==> shares[i].path != path
    ensures !SomeMounts(shares, path, name) && !SomeWrites(shares, path, name) && !SomeTimeMachine(shares, path)
    ensures OwnerOf(shares, path) == []
  {
    if shares != [] {
      NoneGives(shares[1..], path, name);
    }
  }

  /** A row of the fold of one row more: the row there was, merged when the new one has its folder, or the new one. */
  lemma {:induction false} FoldedAt(shares: seq<Share>, k: nat)
    requires k < |Folded(shares).0|
    ensures shares != []
    ensures
      var (before, share) := (shares[..|shares| - 1], shares[|shares| - 1]);
      var kept := Folded(before).0;
      if k < |kept| then Folded(shares).0[k] == if kept[k].path == share.path then Merged(kept[k], share) else kept[k]
      else k == |kept| && Folded(shares).0[k] == share && HasNone(before, share.path)
  {
    var n := |shares| - 1;
    var kept := Folded(shares[..n]).0;
    FoldPartitions(shares[..n]);
    FirstHasNoRow(shares[..n], kept, shares[n].path);
    assert k < |kept| ==> (kept[k].path == shares[n].path <==> RowOf(kept, shares[n].path) == k);
  }

  /** A folder's kept row is for Time Machine when one of its rows was, and belongs to the first account that owned
      one. */
  lemma {:induction false} FoldKeepsRest(shares: seq<Share>, k: nat)
    requires k < |Folded(shares).0|
    ensures KeepsRest(shares, Folded(shares).0[k])
  {
    FoldedAt(shares, k);
    var before, share := shares[..|shares| - 1], shares[|shares| - 1];
    var row := Folded(shares).0[k];
    assert before + [share] == shares;
    SomeSnoc(before, share, row.path, []);
    OwnerOfSnoc(before, share, row.path);
    if k < |Folded(before).0| {
      FoldKeepsRest(before, k);
    } else {
      NoneGives(before, share.path, []);
    }
  }

  lemma {:induction false} FoldGivesUnion(shares: seq<Share>, k: nat, name: Text)
    requires k < |Folded(shares).0| && AllHeld(shares, Folded(shares).0[k].path)
    ensures ArePlain(ListOf(Folded(shares).0[k])) && GivesUnion(shares, Folded(shares).0[k], name)
  {
    FoldedAt(shares, k);
    var before, share := shares[..|shares| - 1], shares[|shares| - 1];
    var row := Folded(shares).0[k];
    assert before + [share] == shares;
    SomeSnoc(before, share, row.path, name);
    MemberListIsPlain(share.members, share.username);
    if k < |Folded(before).0| {
      var was := Folded(before).0[k];
      assert AllHeld(before, was.path);
      FoldGivesUnion(before, k, name);
      if was.path == share.path {
        assert shares[|shares| - 1].path == row.path;
        MergedMeans(was, share, name);
        MergedIsPlain(was, share);
      }
    } else {
      assert shares[|shares| - 1].path == row.path;
      NoneGives(before, share.path, name);
    }
  }

  lemma {:induction false} TwoBefore(shares: seq<Share>, path: Text)
    requires HasTwo(shares, path)
    ensures shares[|shares| - 1].path != path ==> HasTwo(shares[..|shares| - 1], path)
    ensures !HasNone(shares[..|shares| - 1], path)
  {
    var i, j :| 0 <= i < j < |shares| && shares[i].path == path && shares[j].path == path;
    var before := shares[..|shares| - 1];
    assert before[i].path == path && (j < |before| ==> before[j].path == path);
  }

  /** A row that others were folded into is open to guests exactly when no row of its folder had an account. */
  lemma {:induction false} FoldIsGuestExactly(shares: seq<Share>, k: nat)
    requires k < |Folded(shares).0| && HasTwo(shares, Folded(shares).0[k].path)
    ensures Folded(shares).0[k].anonymous <==>
      forall i :: 0 <= i < |shares| && shares[i].path == Folded(shares).0[k].path ==> shares[i].username == []
  {
    FoldKeepsRest(shares, k);
    OwnerComesFrom(shares, Folded(shares).0[k].path);
    FoldMarksGuests(shares, k);
  }

  lemma {:induction false} FoldMarksGuests(shares: seq<Share>, k: nat)
    requires k < |Folded(shares).0| && HasTwo(shares, Folded(shares).0[k].path)
    ensures Folded(shares).0[k].anonymous <==> Folded(shares).0[k].username == []
  {
    FoldedAt(shares, k);
    TwoBefore(shares, Folded(shares).0[k].path);
    var n := |shares| - 1;
    if k < |Folded(shares[..n]).0| && Folded(shares[..n]).0[k].path != shares[n].path {
      FoldMarksGuests(shares[..n], k);
    }
  }

  lemma {:induction false} LoneRowStays(shares: seq<Share>, k: nat)
    requires k < |Folded(shares).0| && !HasTwo(shares, Folded(shares).0[k].path)
    ensures Folded(shares).0[k] in shares
  {
    FoldedAt(shares, k);
    var n := |shares| - 1;
    if k < |Folded(shares[..n]).0| {
      var was := Folded(shares[..n]).0[k];
      FoldPartitions(shares[..n]);
      var p := Places(shares[..n], true)[k];
      assert shares[p].path == was.path;
      assert !HasTwo(shares[..n], was.path);
      LoneRowStays(shares[..n], k);
    }
  }

  lemma {:induction false} FoldIsPlain(shares: seq<Share>, k: nat)
    requires k < |Folded(shares).0| && HasTwo(shares, Folded(shares).0[k].path)
    ensures ArePlain(ListOf(Folded(shares).0[k]))
  {
    FoldedAt(shares, k);
    TwoBefore(shares, Folded(shares).0[k].path);
    var n := |shares| - 1;
    if k < |Folded(shares[..n]).0| {
      var was := Folded(shares[..n]).0[k];
      if was.path == shares[n].path {
        MergedIsPlain(was, shares[n]);
      } else {
        FoldIsPlain(shares[..n], k);
      }
    }
  }

  /** A folder's kept row lets in exactly those whom one of its rows let in, and lets write exactly those whom one
      let write, if and only if the folder has one row or the column can hold the names its rows list. */
  lemma {:induction false} FoldGivesUnionExactly(shares: seq<Share>, k: nat)
    requires k < |Folded(shares).0|
    ensures var row := Folded(shares).0[k];
      (forall name :: GivesUnion(shares, row, name)) <==> !HasTwo(shares, row.path) || AllHeld(shares, row.path)
  {
    var row := Folded(shares).0[k];
    if AllHeld(shares, row.path) {
      forall name
        ensures GivesUnion(shares, row, name)
      {
        FoldGivesUnion(shares, k, name);
      }
    } else if HasTwo(shares, row.path) {
      FoldIsPlain(shares, k);
      var i :| 0 <= i < |shares| && shares[i].path == row.path
            && ParsedMembers(Fields(shares[i].members)).Nil? && !IsPlainName(shares[i].username);
      var name := shares[i].username;
      assert Mounts(ListOf(shares[i]), name);
      if Mounts(ListOf(row), name) {
        PlainMounts(ListOf(row), name);
      }
      assert !GivesUnion(shares, row, name);
    } else {
      LoneRowStays(shares, k);
      var i :| 0 <= i < |shares| && shares[i] == row;
      forall name
        ensures GivesUnion(shares, row, name)
      {
        assert forall j :: 0 <= j < |shares| && shares[j].path == row.path ==> j == i;
      }
    }
  }

  /** Rows that have a folder each stay as they are, so folding twice is folding once. */
  lemma {:induction false} FoldOfDistinct(shares: seq<Share>)
    requires OneRowEach(shares)
    ensures Folded(shares) == (shares, [])
  {
    if shares != [] {
      var n := |shares| - 1;
      FoldOfDistinct(shares[..n]);
      assert RowOf(shares[..n], shares[n].path) == n;
      assert shares[..n] + [shares[n]] == shares;
    }
  }

  lemma {:induction false} FoldIsIdempotent(shares: seq<Share>)
    ensures Folded(Folded(shares).0) == (Folded(shares).0, [])
  {
    FoldPartitions(shares);
    FoldOfDistinct(Folded(shares).0);
  }

  // ---------------------------------------------------------------- folders still open

  /** The kept rows, in order, whose folder's first row was a guest share and that have an owner now. */
  function Protected(before: seq<Share>, kept: seq<Share>): seq<Share> {
    if kept == [] then []
    else
      var row, i := kept[|kept| - 1], RowOf(before, kept[|kept| - 1].path);
      Protected(before, kept[..|kept| - 1])
      + if (i < |before| ==> before[i].username == []) && row.username != [] then [row] else []
  }

  method NewlyProtected(before: seq<Share>, kept: seq<Share>) returns (result: seq<Share>)
    ensures result == Protected(before, kept)
  {
    var oldest: map<Text, Text> := map[];
    for n := 0 to |before|
      invariant forall path :: path in oldest <==> RowOf(before, path) < n
      invariant forall path :: path in oldest ==> oldest[path] == before[RowOf(before, path)].username
    {
      var share := before[n];
      if share.path !in oldest {
        assert RowOf(before, share.path) == n;
        oldest := oldest[share.path := share.username];
      }
    }
    result := [];
    for n := 0 to |kept|
      invariant result == Protected(before, kept[..n])
    {
      assert kept[..n + 1][..n] == kept[..n];
      var share := kept[n];
      if (share.path in oldest ==> oldest[share.path] == []) && share.username != [] {
        result := result + [share];
      }
    }
    assert kept[..|kept|] == kept;
  }

  lemma {:induction false} ProtectedHas(before: seq<Share>, kept: seq<Share>, row: Share)
    ensures row in Protected(before, kept) <==>
      && row in kept && row.username != []
      && (RowOf(before, row.path) < |before| ==> before[RowOf(before, row.path)].username == [])
  {
    if kept != [] {
      ProtectedHas(before, kept[..|kept| - 1], row);
      assert kept == kept[..|kept| - 1] + [kept[|kept| - 1]];
    }
  }

  lemma {:induction false} OwnerComesFrom(shares: seq<Share>, path: Text)
    ensures OwnerOf(shares, path) != [] <==>
      exists i :: 0 <= i < |shares| && shares[i].path == path && shares[i].username != []
  {
    if shares != [] {
      OwnerComesFrom(shares[1..], path);
      assert forall i :: 1 <= i < |shares| ==> shares[i] == shares[1..][i - 1];
      if OwnerOf(shares[1..], path) != [] {
        var i :| 0 <= i < |shares[1..]| && shares[1..][i].path == path && shares[1..][i].username != [];
        assert shares[i + 1].path == path;
      }
    }
  }

  /** After folding, these are the folders whose oldest row was a guest share and another row of which was not. */
  lemma {:induction false} ProtectedByFold(shares: seq<Share>, k: nat)
    requires k < |Folded(shares).0|
    ensures
      var row := Folded(shares).0[k];
      var oldest := RowOf(shares, row.path);
      && oldest < |shares| && shares[oldest].id == row.id
      && (row in Protected(shares, Folded(shares).0) <==>
            && shares[oldest].username == []
            && exists i :: 0 <= i < |shares| && shares[i].path == row.path && shares[i].username != [])
  {
    FoldPartitions(shares);
    var row, p := Folded(shares).0[k], Places(shares, true)[k];
    assert p in Places(shares, true);
    assert IsFirst(shares, p) && RowOf(shares, row.path) == p;
    FoldKeepsRest(shares, k);
    OwnerComesFrom(shares, row.path);
    ProtectedHas(shares, Folded(shares).0, row);
  }
}
