/** The projected tree as the File Provider service changes it (src/mnema/file_provider/service.py). */
module ProjectedTrees {
  import opened Basics
  import opened Tree
  import CursorCodec
  import Names

  /** The tree after the first k roots were added to an empty one. */
  function FirstRoots(k: nat): map<Id, Node>
    requires k <= |ROOTS|
  {
    if k == 0 then map[] else FirstRoots(k - 1)[ROOTS[k - 1].0 := Node(ROOTS[k - 1].1, ROOTS[k - 1].2, Ready)]
  }

  lemma RootsInOrder(k: nat)
    requires k < |ROOTS|
    ensures ROOTS[k].0 !in FirstRoots(k)
  {
    assert FirstRoots(0) == map[] && k <= 5;
    assert k > 0 ==> FirstRoots(1).Keys == {Root};
    assert k > 1 ==> FirstRoots(2).Keys == {Root, Inbox};
    assert k > 2 ==> FirstRoots(3).Keys == {Root, Inbox, ArchiveRoot};
    assert k > 3 ==> FirstRoots(4).Keys == {Root, Inbox, ArchiveRoot, In(Uploads)};
    assert k > 4 ==> FirstRoots(5).Keys == {Root, Inbox, ArchiveRoot, In(Uploads), In(ICloud)};
  }

  lemma {:induction false} RootsAreListed(k: nat, id: Id) returns (j: nat)
    requires k <= |ROOTS| && id in FirstRoots(k)
    ensures j < k && ROOTS[j].0 == id && FirstRoots(k)[id] == Node(ROOTS[j].1, ROOTS[j].2, Ready)
  {
    if id == ROOTS[k - 1].0 {
      j := k - 1;
    } else {
      j := RootsAreListed(k - 1, id);
    }
  }

  lemma RootsFitTogether(k: nat)
    requires 1 <= k < |ROOTS|
    ensures var root := ROOTS[k];
            && !IsLeaf(root.0) && !root.0.Folder? && root.1 == ParentOf(root.0)
            && (root.1 == Some(Root) || (root.1 == Some(ArchiveRoot) && k > 2))
            && forall j :: 0 <= j < k ==> !(ROOTS[j].1 == root.1 && ROOTS[j].2 == root.2)
  {
  }

  lemma RootNameIsFree(k: nat)
    requires 1 <= k < |ROOTS|
    ensures ROOTS[k].1.Some? && !Taken(FirstRoots(k), ROOTS[k].1.value, ROOTS[k].2, ROOTS[k].0)
  {
    hide FirstRoots;
    RootsFitTogether(k);
    var items := FirstRoots(k);
    forall other | other in items && items[other].parent == ROOTS[k].1 ensures items[other].name != ROOTS[k].2 {
      var j := RootsAreListed(k, other);
    }
  }

  lemma FirstRootKeeps()
    ensures FirstRoots(1) == map[Root := Node(None, "Mnema", Ready)]
    ensures AllPlaced(FirstRoots(1)) && NamesUnique(FirstRoots(1))
  {
    assert FirstRoots(1) == map[][Root := Node(None, "Mnema", Ready)];
  }

  lemma {:induction false} RootsKeep(k: nat)
    requires 1 <= k <= |ROOTS|
    ensures AllPlaced(FirstRoots(k)) && NamesUnique(FirstRoots(k)) && Root in FirstRoots(k)
    ensures k > 2 ==> ArchiveRoot in FirstRoots(k)
  {
    hide AllPlaced, NamesUnique, Taken, ParentOf, IsLeaf;
    if k == 1 {
      FirstRootKeeps();
    } else {
      RootsKeep(k - 1);
      RootsFitTogether(k - 1);
      RootNameIsFree(k - 1);
      RootsAreNoLeaves();
      PutKeepsPlaced(FirstRoots(k - 1), ROOTS[k - 1].0, Node(ROOTS[k - 1].1, ROOTS[k - 1].2, Ready));
      PutKeepsNames(FirstRoots(k - 1), ROOTS[k - 1].0, Node(ROOTS[k - 1].1, ROOTS[k - 1].2, Ready));
    }
  }

  lemma RootsAreNoLeaves()
    ensures !IsLeaf(Root) && !IsLeaf(ArchiveRoot)
  {
  }

  lemma RootsAreTree(changes: seq<Id>)
    ensures TreeOk(Tree(FirstRoots(6), map[], changes))
  {
    hide AllPlaced, NamesUnique;
    RootsKeep(6);
    assert FirstRoots(6).Keys == {Root, Inbox, ArchiveRoot, In(Uploads), In(ICloud), In(Local)} by {
      assert FirstRoots(4).Keys == {Root, Inbox, ArchiveRoot, In(Uploads)};
    }
  }

  /** No other child of the parent has the name. */
  predicate Alone(items: map<Id, Node>, parent: Id, name: string, id: Id) {
    forall other :: other in items && other != id && items[other].name == name ==> items[other].parent != Some(parent)
  }

  lemma AloneUnlessTaken(items: map<Id, Node>, parent: Id, name: string, id: Id)
    ensures Alone(items, parent, name, id) <==> !Taken(items, parent, name, id)
  {
  }

  /** A derived name is one of the three, and free. */
  lemma DerivedIsAlone(render: Render, items: map<Id, Node>, parent: Id, desired: string, id: Id)
    ensures var name := UniqueName(render, items, parent, desired, id);
            if name.Some? then NamedFor(render, name.value, desired, id) && Alone(items, parent, name.value, id)
            else NoNameLeft(render, items, parent, desired, id)
  {
    NamesInOrder(render, items, parent, desired, id);
    var name := UniqueName(render, items, parent, desired, id);
    hide UniqueName, Names.Suffixed;
    if name.Some? {
      AloneUnlessTaken(items, parent, name.value, id);
      hide Taken;
    }
  }

  lemma StaysAlone(items: map<Id, Node>, parent: Id, name: string, id: Id, node: Node)
    requires Alone(items, parent, name, id)
    ensures Alone(items[id := node], parent, name, id)
  {
  }

  /** The k-th folder of the path is missing and no name is left for it. */
  predicate NoWayInto(render: Render, items: map<Id, Node>, dirs: seq<string>, k: nat)
    requires 0 < k <= |dirs|
  {
    && Folder(dirs[..k]) !in items
    && NoNameLeft(render, items, if k == 1 then In(ICloud) else Folder(dirs[..k - 1]), dirs[k - 1], Folder(dirs[..k]))
  }

  lemma NoNameIsNoWay(render: Render, items: map<Id, Node>, dirs: seq<string>, k: nat)
    requires 0 < k <= |dirs| && Folder(dirs[..k]) !in items
    requires NoNameLeft(render, items, FolderAt(dirs, k - 1), dirs[k - 1], Folder(dirs[..k]))
    ensures NoWayInto(render, items, dirs, k)
  {
    hide NoNameLeft;
  }

  /** A folder on its way or its own file cannot be given a name. */
  predicate HasNoPlace(render: Render, t: Tree, a: Archive)
    requires a.parts.Some? && a.parts.value != []
  {
    var n := |a.parts.value| - 1;
    var dirs, name := a.parts.value[..n], a.parts.value[n];
    var id := if a.id in t.archiveOf then t.archiveOf[a.id] else Projected(a.id);
    if a.provider == "icloud_photos" then
      || (exists k :: 0 < k <= n && NoWayInto(render, t.items, dirs, k))
      || NoNameLeft(render, t.items, if n == 0 then In(ICloud) else Folder(dirs), name, id)
    else
      NoNameLeft(render, t.items, if a.provider == "file_provider_upload" then In(Uploads) else In(Local),
                 CursorCodec.Decimal(a.id) + "-" + name, id)
  }

  class ProjectedTree {
    const render: Render
    var items: map<Id, Node>
    var archiveOf: map<nat, Id>
    var changes: seq<Id>

    constructor (render: Render)
      ensures this.render == render && TreeOk(State())
    {
      this.render := render;
      items, archiveOf, changes := map[], map[], [];
      new;
      BootstrapRoots();
    }

    ghost function State(): Tree reads this {
      Tree(items, archiveOf, changes)
    }

    /** Adds the roots that are missing; where they exist nothing changes and nothing is recorded. */
    method BootstrapRoots()
      requires State() == Tree(map[], map[], []) || TreeOk(State())
      modifies this
      ensures TreeOk(State())
      ensures old(TreeOk(State())) ==> State() == old(State())
    {
      hide TreeOk;
      ghost var start := State();
      ghost var complete := TreeOk(start);
      if complete {
        RootsAreThere(start);
      }
      var k := 0;
      while k < |ROOTS|
        invariant 0 <= k <= |ROOTS|
        invariant complete ==> State() == start
        invariant !complete ==> archiveOf == map[] && items == FirstRoots(k)
        decreases |ROOTS| - k
      {
        RootsInOrder(k);
        var root := ROOTS[k];
        if root.0 !in items {
          items := items[root.0 := Node(root.1, root.2, Ready)];
          changes := changes + [root.0];
        }
        k := k + 1;
      }
      if !complete {
        RootsAreTree(changes);
      }
    }

    /** Tries the desired name and the two derived ones against the siblings, in order. */
    method UniqueChildName(parent: Id, desired: string, id: Id) returns (name: Option<string>)
      ensures name == UniqueName(render, items, parent, desired, id)
      ensures var short := Names.Suffixed(desired, if |render(id)| <= 8 then render(id) else render(id)[..8]);
              var full := Names.Suffixed(desired, render(id));
              name == if Alone(items, parent, desired, id) then Some(desired) else if Alone(items, parent, short, id) then Some(short)
                      else if Alone(items, parent, full, id) then Some(full) else None
    {
      NamesInOrder(render, items, parent, desired, id);
      forall n ensures Alone(items, parent, n, id) <==> !Taken(items, parent, n, id) {
        AloneUnlessTaken(items, parent, n, id);
      }
      hide Taken, Alone, Names.Suffixed;
      var choices := NameChoices(render, desired, id);
      var k := 0;
      while k < |choices|
        invariant 0 <= k <= |choices|
        invariant FirstFree(items, parent, choices, id) == FirstFree(items, parent, choices[k..], id)
      {
        if !Taken(items, parent, choices[k], id) {
          return Some(choices[k]);
        }
        assert choices[k..][1..] == choices[k + 1..];
        k := k + 1;
      }
      name := None;
    }

    method RecordChange(id: Id)
      modifies this`changes
      ensures changes == old(changes) + [id]
    {
      changes := changes + [id];
    }

    /** Moves a finished upload from the inbox to the uploads collection, once. */
    method PromoteUpload(archive: Archive, id: Id) returns (ok: bool)
      requires TreeOk(State())
      modifies this
      ensures TreeOk(State())
      ensures ok <==> Promoted(render, old(State()), archive, id).Some?
      ensures State() == if ok then Promoted(render, old(State()), archive, id).value else old(State())
      ensures !archive.ready || id !in old(items) || old(items)[id].status.Ready? ==> ok && State() == old(State())
      ensures ok && archive.ready && id in old(items) && !old(items)[id].status.Ready? ==>
        var number := CursorCodec.Decimal(archive.id) + "-";
        var current := old(items)[id].name;
        && changes == old(changes) + [id] && archiveOf == old(archiveOf) && id in items
        && items == old(items)[id := Node(Some(In(Uploads)), items[id].name, Ready)]
        && NamedFor(render, items[id].name, if number <= current then current else number + current, id)
        && Alone(items, In(Uploads), items[id].name, id)
      ensures !ok ==>
        && id in items
        && var number := CursorCodec.Decimal(archive.id) + "-";
        var current := items[id].name;
        NoNameLeft(render, items, In(Uploads), if number <= current then current else number + current, id)
    {
      hide TreeOk, UniqueName, NamedFor, Names.Suffixed, Alone, NoNameLeft, CursorCodec.Decimal;
      PromotedKeeps(render, State(), archive, id);
      if !archive.ready {
        return true;
      }
      if id !in items || items[id].status.Ready? {
        return true;
      }
      var current := items[id].name;
      var prefix := CursorCodec.Decimal(archive.id) + "-";
      var desired := if prefix <= current then current else prefix + current;
      DerivedIsAlone(render, items, In(Uploads), desired, id);
      var name := UniqueChildName(In(Uploads), desired, id);
      if name.None? {
        return false;
      }
      StaysAlone(items, In(Uploads), name.value, id, Node(Some(In(Uploads)), name.value, Ready));
      items := items[id := Node(Some(In(Uploads)), name.value, Ready)];
      RecordChange(id);
      ok := true;
    }

    /** Walks the directories of a library path, making each folder that is missing. */
    method PlaceFolders(dirs: seq<string>) returns (parent: Option<Id>)
      requires TreeOk(State())
      modifies this
      ensures archiveOf == old(archiveOf)
      ensures parent == (if WithFolders(render, old(State()), dirs, |dirs|).Some? then Some(FolderAt(dirs, |dirs|)) else None)
      ensures parent.Some? ==> WithFolders(render, old(State()), dirs, |dirs|) == Some(State())
      ensures parent.Some? ==> parent.value == if dirs == [] then In(ICloud) else Folder(dirs)
      ensures parent.Some? ==> forall k :: 0 < k <= |dirs| ==> Folder(dirs[..k]) in items
      ensures parent.Some? ==> forall id :: id in items && id !in old(items) ==> MadeFor(render, items[id], id, dirs, |dirs|)
      ensures parent.Some? ==> OnlyAdds(old(State()), State())
      ensures parent.None? ==> exists k :: 0 < k <= |dirs| && NoWayInto(render, items, dirs, k)
    {
      hide TreeOk, UniqueName, WithFolders, MadeFor, OnlyAdds, NoNameLeft, NoWayInto;
      ghost var start := State();
      NextFolderIs(render, start, dirs, 0);
      var folder := FolderAt(dirs, 0);
      var k := 0;
      while k < |dirs|
        invariant 0 <= k <= |dirs| && archiveOf == start.archiveOf
        invariant folder == FolderAt(dirs, k)
        invariant WithFolders(render, start, dirs, k) == Some(State())
      {
        NextFolderIs(render, start, dirs, k + 1);
        var id := Folder(dirs[..k + 1]);
        if id !in items {
          var name := UniqueChildName(folder, dirs[k], id);
          if name.None? {
            DerivedIsAlone(render, items, folder, dirs[k], id);
            NoNameIsNoWay(render, items, dirs, k + 1);
            NoWayOn(render, start, dirs, k + 1, |dirs|);
            return None;
          }
          items := items[id := Node(Some(folder), name.value, Ready)];
          RecordChange(id);
        }
        folder := id;
        k := k + 1;
      }
      parent := Some(folder);
      FoldersMade(render, start, dirs, |dirs|);
      assert dirs[..|dirs|] == dirs;
    }

    /** Makes the file of an archive, or renames or moves it when it is not where it belongs. */
    method PlaceFile(archive: nat, parent: Id, desired: string) returns (ok: bool, changed: bool)
      requires TreeOk(State())
      modifies this
      ensures ok <==> WithFile(render, old(State()), archive, parent, desired).Some?
      ensures ok ==> WithFile(render, old(State()), archive, parent, desired) == Some(State())
      ensures ok && !changed ==> State() == old(State())
      ensures ok ==>
        && archive in archiveOf && archiveOf[archive] in items && archiveOf == old(archiveOf)[archive := archiveOf[archive]]
        && var id := archiveOf[archive];
        && id == (if archive in old(archiveOf) then old(archiveOf)[archive] else Projected(archive))
        && items == old(items)[id := items[id]] && changes == old(changes) + (if changed then [id] else [])
        && items[id] == Node(Some(parent), items[id].name, if archive in old(archiveOf) then old(items)[id].status else Ready)
        && NamedFor(render, items[id].name, desired, id) && Alone(items, parent, items[id].name, id)
      ensures !ok ==> State() == old(State())
                      && NoNameLeft(render, items, parent, desired, if archive in archiveOf then archiveOf[archive] else Projected(archive))
      ensures ok ==> (changed <==> archive !in old(archiveOf) || items != old(items))
    {
      hide TreeOk, UniqueName, NamedFor, Names.Suffixed, Alone, NoNameLeft;
      ArchiveLinks(State(), archive);
      changed := false;
      var known := archive in archiveOf;
      var id := if known then archiveOf[archive] else Projected(archive);
      DerivedIsAlone(render, items, parent, desired, id);
      var name := UniqueChildName(parent, desired, id);
      if name.None? {
        return false, changed;
      }
      ok := true;
      if !known {
        StaysAlone(items, parent, name.value, id, Node(Some(parent), name.value, Ready));
        items := items[id := Node(Some(parent), name.value, Ready)];
        archiveOf := archiveOf[archive := id];
        RecordChange(id);
        changed := true;
      } else if items[id].parent != Some(parent) || items[id].name != name.value {
        StaysAlone(items, parent, name.value, id, items[id].(parent := Some(parent), name := name.value));
        items := items[id := items[id].(parent := Some(parent), name := name.value)];
        RecordChange(id);
        changed := true;
      }
    }

    method ProjectArchive(a: Archive) returns (ok: bool, changed: bool)
      requires TreeOk(State())
      modifies this
      ensures ok <==> ProjectOne(render, old(State()), a).Some?
      ensures ok ==> ProjectOne(render, old(State()), a) == Some(State()) && TreeOk(State())
      ensures ok && !changed ==> OnlyAdds(old(State()), State())
      ensures !a.ready ==> ok && State() == old(State())
      ensures ok && a.ready ==> AtHome(render, State(), a)
      ensures !ok ==>
        a.ready && (a.parts.None? || a.parts.value == [] || HasNoPlace(render, State(), a))
    {
      hide TreeOk, WithFile, WithFolders, AtHome, NamedFor, MadeFor, NoNameLeft, NoWayInto;
      changed := false;
      ghost var start := State();
      if !a.ready {
        return true, changed;
      }
      if a.parts.None? || a.parts.value == [] {
        return false, changed;
      }
      var n := |a.parts.value| - 1;
      var dirs, name := a.parts.value[..n], a.parts.value[n];
      if a.provider == "icloud_photos" {
        var parent := PlaceFolders(dirs);
        if parent.None? {
          return false, changed;
        }
        WithFoldersKeeps(render, start, dirs, n);
        ok, changed := PlaceFile(a.id, parent.value, name);
      } else {
        ok, changed := PlaceFile(a.id, In(CollectionOf(a.provider)), CursorCodec.Decimal(a.id) + "-" + name);
      }
      if ok {
        ProjectOneKeeps(render, start, a);
        OneIsHome(render, start, a);
      }
    }

    /** Projects every ready archive. An exception rolls the whole run back. A run that reports no
        projected file is a fixed point of projection. */
    method ProjectVerifiedArchives(archives: seq<Archive>) returns (projected: Option<nat>)
      requires TreeOk(State()) && DistinctArchives(archives)
      modifies this
      ensures TreeOk(State())
      ensures projected.Some? <==> Project(render, old(State()), archives).Some?
      ensures State() == if projected.Some? then Project(render, old(State()), archives).value else old(State())
      ensures projected.Some? ==> forall k :: 0 <= k < |archives| && archives[k].ready ==> AtHome(render, State(), archives[k])
      ensures projected == Some(0) ==> OnlyAdds(old(State()), State()) && Project(render, State(), archives) == Some(State())
    {
      hide TreeOk, ProjectOne, AtHome;
      BootstrapRoots();
      ghost var start := State();
      var items0, archiveOf0, changes0 := items, archiveOf, changes;
      var count := 0;
      var k := 0;
      while k < |archives|
        invariant 0 <= k <= |archives|
        invariant TreeOk(State()) && Project(render, start, archives[..k]) == Some(State())
        invariant count == 0 ==> OnlyAdds(start, State())
      {
        assert archives[..k + 1][..k] == archives[..k];
        var ok, changed := ProjectArchive(archives[k]);
        if !ok {
          items, archiveOf, changes := items0, archiveOf0, changes0;
          NoneStaysNone(render, start, archives, k + 1);
          return None;
        }
        if changed {
          count := count + 1;
        }
        k := k + 1;
      }
      assert archives[..k] == archives;
      if count == 0 {
        ProjectionIsFixedPoint(render, start, archives);
      }
      projected := Some(count);
      forall j | 0 <= j < |archives| && archives[j].ready ensures AtHome(render, State(), archives[j]) {
        ProjectedAreHome(render, start, archives, j);
      }
    }
  }

  /** One more folder, spelled out. */
  lemma NextFolderIs(render: Render, t: Tree, dirs: seq<string>, k: nat)
    requires k <= |dirs|
    ensures k == 0 ==> WithFolders(render, t, dirs, k) == Some(t)
    ensures k > 0 && WithFolders(render, t, dirs, k - 1).Some? ==>
              var u := WithFolders(render, t, dirs, k - 1).value;
              var name := UniqueName(render, u.items, FolderAt(dirs, k - 1), dirs[k - 1], FolderAt(dirs, k));
              WithFolders(render, t, dirs, k) ==
              if FolderAt(dirs, k) in u.items then Some(u)
              else if name.None? then None
              else Some(Put(u, FolderAt(dirs, k), Node(Some(FolderAt(dirs, k - 1)), name.value, Ready)))
  {
    hide UniqueName;
  }

  lemma {:induction false} NoWayOn(render: Render, t: Tree, dirs: seq<string>, k: nat, n: nat)
    requires k <= n <= |dirs| && WithFolders(render, t, dirs, k).None?
    ensures WithFolders(render, t, dirs, n).None?
  {
    hide UniqueName;
    if k < n {
      NoWayOn(render, t, dirs, k, n - 1);
    }
  }

  lemma {:induction false} NoneStaysNone(render: Render, t: Tree, archives: seq<Archive>, k: nat)
    requires k <= |archives| && Project(render, t, archives[..k]).None?
    ensures Project(render, t, archives).None?
    decreases |archives|
  {
    hide ProjectOne;
    if k < |archives| {
      var n := |archives| - 1;
      assert archives[..n][..k] == archives[..k];
      NoneStaysNone(render, t, archives[..n], k);
    } else {
      assert archives[..k] == archives;
    }
  }
}
