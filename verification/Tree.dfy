/** The tree the phone sees: roots, folders of the photo library, projected archives and uploads
    (src/mnema/file_provider/service.py). */
module Tree {
  import opened Basics
  import Names
  import CursorCodec

  datatype Collection = Uploads | ICloud | Local

  /** Item identifiers by how they are made. The source renders them as fixed words, UUID5 of a path
      or of an archive, and UUID4 of an upload; different ones are taken to be different. */
  datatype Id =
    | Root
    | Inbox
    | ArchiveRoot
    | In(collection: Collection)
    | Folder(path: seq<string>)
    | Projected(archive: nat)
    | Upload(upload: nat)

  datatype Status = Ready | Processing | Failed

  datatype Node = Node(parent: Option<Id>, name: string, status: Status)

  /** `archiveOf` is the unique archive_item_id column; `changes` the items of the journal rows. */
  datatype Tree = Tree(items: map<Id, Node>, archiveOf: map<nat, Id>, changes: seq<Id>)

  /** An archive item as projection reads it; `ready` stands for a ready state with a cold archive
      time and a path, `parts` is None when the original path is unsafe. */
  datatype Archive = Archive(id: nat, provider: string, parts: Option<seq<string>>, ready: bool)

  type Render = Id -> string

  predicate IsLeaf(id: Id) {
    id.Projected? || id.Upload?
  }

  // ---------------------------------------------------------------- names

  predicate Taken(items: map<Id, Node>, parent: Id, name: string, id: Id) {
    exists other :: other in items && other != id && items[other].parent == Some(parent) && items[other].name == name
  }

  /** Short and full identifier suffixes, after the desired name itself. */
  function NameChoices(render: Render, desired: string, id: Id): (c: seq<string>)
    ensures |c| == 3
  {
    [desired, Names.Suffixed(desired, Names.Prefix(render(id), 8)), Names.Suffixed(desired, render(id))]
  }

  /** The first choice no other child of the parent holds. */
  function FirstFree(items: map<Id, Node>, parent: Id, choices: seq<string>, id: Id): (name: Option<string>)
    ensures name.Some? ==> name.value in choices && !Taken(items, parent, name.value, id)
    ensures name.None? ==> forall c :: c in choices ==> Taken(items, parent, c, id)
  {
    if choices == [] then None
    else if !Taken(items, parent, choices[0], id) then Some(choices[0])
    else
      assert choices == [choices[0]] + choices[1..];
      FirstFree(items, parent, choices[1..], id)
  }

  function UniqueName(render: Render, items: map<Id, Node>, parent: Id, desired: string, id: Id): Option<string> {
    FirstFree(items, parent, NameChoices(render, desired, id), id)
  }

  /** The name is the wanted one, or that with eight characters of the identifier, or with all of it. */
  predicate NamedFor(render: Render, name: string, desired: string, id: Id) {
    || name == desired
    || name == Names.Suffixed(desired, if |render(id)| <= 8 then render(id) else render(id)[..8])
    || name == Names.Suffixed(desired, render(id))
  }

  /** Other children of the parent have all three. */
  predicate NoNameLeft(render: Render, items: map<Id, Node>, parent: Id, desired: string, id: Id) {
    && Taken(items, parent, desired, id)
    && Taken(items, parent, Names.Suffixed(desired, if |render(id)| <= 8 then render(id) else render(id)[..8]), id)
    && Taken(items, parent, Names.Suffixed(desired, render(id)), id)
  }

  /** The first of the three that no sibling has, and nothing when all are taken. */
  lemma NamesInOrder(render: Render, items: map<Id, Node>, parent: Id, desired: string, id: Id)
    ensures var short := Names.Suffixed(desired, if |render(id)| <= 8 then render(id) else render(id)[..8]);
            var full := Names.Suffixed(desired, render(id));
            UniqueName(render, items, parent, desired, id) ==
            if !Taken(items, parent, desired, id) then Some(desired)
            else if !Taken(items, parent, short, id) then Some(short)
            else if !Taken(items, parent, full, id) then Some(full)
            else None
  {
    hide Taken, Names.Suffixed;
    var c := NameChoices(render, desired, id);
    assert c[1..] == [c[1], c[2]] && [c[1], c[2]][1..] == [c[2]] && [c[2]][1..] == [];
    var last := FirstFree(items, parent, [c[2]], id);
    assert last == if !Taken(items, parent, c[2], id) then Some(c[2]) else None;
    assert FirstFree(items, parent, [c[1], c[2]], id) == if !Taken(items, parent, c[1], id) then Some(c[1]) else last;
  }

  // ---------------------------------------------------------------- what stays true

  function ParentOf(id: Id): Option<Id> {
    match id
    case Root => None
    case Inbox => Some(Root)
    case ArchiveRoot => Some(Root)
    case In(_) => Some(ArchiveRoot)
    case Folder(path) => if |path| <= 1 then Some(In(ICloud)) else Some(Folder(path[..|path| - 1]))
    case _ => None
  }

  /** Every parent is in the tree and is no file; roots and folders have the parent their identifier says. */
  predicate Placed(items: map<Id, Node>, id: Id)
    requires id in items
  {
    var p := items[id].parent;
    && (p.Some? ==> p.value in items && !IsLeaf(p.value))
    && (IsLeaf(id) ==> p.Some?)
    && (!IsLeaf(id) ==> p == ParentOf(id))
    && (id.Folder? ==> id.path != [])
    && (!IsLeaf(id) ==> items[id].status.Ready?)
  }

  ghost predicate AllPlaced(items: map<Id, Node>) {
    forall id {:trigger Placed(items, id)} :: id in items ==> Placed(items, id)
  }

  predicate NameIsOwn(items: map<Id, Node>, id: Id)
    requires id in items
  {
    items[id].parent.Some? ==> !Taken(items, items[id].parent.value, items[id].name, id)
  }

  /** The unique index on (parent, name). */
  ghost predicate NamesUnique(items: map<Id, Node>) {
    forall id {:trigger NameIsOwn(items, id)} :: id in items ==> NameIsOwn(items, id)
  }

  /** Every archive has at most one item and every item at most one archive. */
  ghost predicate ArchivesLinked(t: Tree) {
    && (forall a :: a in t.archiveOf ==> t.archiveOf[a] in t.items && IsLeaf(t.archiveOf[a]))
    && (forall a, b :: a in t.archiveOf && b in t.archiveOf && a != b ==> t.archiveOf[a] != t.archiveOf[b])
    && (forall a :: Projected(a) in t.items ==> a in t.archiveOf && t.archiveOf[a] == Projected(a))
    && (forall a, b :: a in t.archiveOf && t.archiveOf[a] == Projected(b) ==> a == b)
  }

  predicate HasRoots(items: map<Id, Node>) {
    && Root in items && Inbox in items && ArchiveRoot in items
    && In(Uploads) in items && In(ICloud) in items && In(Local) in items
  }

  ghost predicate TreeOk(t: Tree) {
    HasRoots(t.items) && AllPlaced(t.items) && NamesUnique(t.items) && ArchivesLinked(t)
  }

  // ---------------------------------------------------------------- operations

  function Put(t: Tree, id: Id, node: Node): Tree {
    t.(items := t.items[id := node], changes := t.changes + [id])
  }

  const ROOTS: seq<(Id, Option<Id>, string)> :=
    [ (Root, None, "Mnema"), (Inbox, Some(Root), "Inbox"), (ArchiveRoot, Some(Root), "Archive"),
      (In(Uploads), Some(ArchiveRoot), "Uploads"), (In(ICloud), Some(ArchiveRoot), "iCloud Photos"),
      (In(Local), Some(ArchiveRoot), "Local Imports") ]

  /** create_upload puts the name in the inbox as it is; the unique index refuses one that is taken. */
  function Created(t: Tree, upload: nat, archive: nat, name: string): Option<Tree> {
    if Upload(upload) in t.items || archive in t.archiveOf || Taken(t.items, Inbox, name, Upload(upload)) then None
    else
      var u := Put(t, Upload(upload), Node(Some(Inbox), name, Processing));
      Some(u.(archiveOf := u.archiveOf[archive := Upload(upload)]))
  }

  function Numbered(archive: nat, name: string): string {
    CursorCodec.Decimal(archive) + "-" + name
  }

  /** The promoted name: the archive number in front unless it is there already. */
  function PromotedName(archive: nat, name: string): string {
    if CursorCodec.Decimal(archive) + "-" <= name then name else Numbered(archive, name)
  }

  /** None stands for the ValueError of unique_child_name. */
  function Promoted(render: Render, t: Tree, archive: Archive, id: Id): Option<Tree> {
    if !archive.ready || id !in t.items || t.items[id].status.Ready? then Some(t)
    else
      var name := UniqueName(render, t.items, In(Uploads), PromotedName(archive.id, t.items[id].name), id);
      if name.None? then None else Some(Put(t, id, Node(Some(In(Uploads)), name.value, Ready)))
  }

  function MarkedFailed(t: Tree, id: Id): Tree {
    if id !in t.items || !id.Upload? then t else Put(t, id, t.items[id].(status := Failed))
  }

  /** Removes an upload; its archive has no item any more. */
  function Removed(t: Tree, id: Id): Tree {
    if id !in t.items || !id.Upload? then t
    else Tree(t.items - {id}, map a | a in t.archiveOf && t.archiveOf[a] != id :: t.archiveOf[a], t.changes + [id])
  }

  function CollectionOf(provider: string): Collection {
    if provider == "file_provider_upload" then Uploads
    else if provider == "icloud_photos" then ICloud
    else Local
  }

  function FolderAt(dirs: seq<string>, k: nat): Id
    requires k <= |dirs|
  {
    if k == 0 then In(ICloud) else Folder(dirs[..k])
  }

  /** The first k folders of a path, each made if it is missing. */
  function WithFolders(render: Render, t: Tree, dirs: seq<string>, k: nat): Option<Tree>
    requires k <= |dirs|
  {
    if k == 0 then Some(t)
    else
      var u := WithFolders(render, t, dirs, k - 1);
      if u.None? || FolderAt(dirs, k) in u.value.items then u
      else
        var parent := FolderAt(dirs, k - 1);
        var name := UniqueName(render, u.value.items, parent, dirs[k - 1], FolderAt(dirs, k));
        if name.None? then None else Some(Put(u.value, FolderAt(dirs, k), Node(Some(parent), name.value, Ready)))
  }

  /** The file of one archive under its parent: made, renamed or moved, or left alone. */
  function WithFile(render: Render, t: Tree, archive: nat, parent: Id, desired: string): Option<Tree> {
    var id := if archive in t.archiveOf then t.archiveOf[archive] else Projected(archive);
    var name := UniqueName(render, t.items, parent, desired, id);
    if name.None? then None
    else if archive !in t.archiveOf || id !in t.items then
      var u := Put(t, id, Node(Some(parent), name.value, Ready));
      Some(u.(archiveOf := u.archiveOf[archive := id]))
    else if t.items[id].parent != Some(parent) || t.items[id].name != name.value then
      Some(Put(t, id, t.items[id].(parent := Some(parent), name := name.value)))
    else Some(t)
  }

  function ProjectOne(render: Render, t: Tree, a: Archive): Option<Tree> {
    if !a.ready then Some(t)
    else if a.parts.None? || a.parts.value == [] then None
    else
      var n := |a.parts.value| - 1;
      var dirs, name := a.parts.value[..n], a.parts.value[n];
      if CollectionOf(a.provider).ICloud? then
        var u := WithFolders(render, t, dirs, n);
        if u.None? then None else WithFile(render, u.value, a.id, FolderAt(dirs, n), name)
      else WithFile(render, t, a.id, In(CollectionOf(a.provider)), Numbered(a.id, name))
  }

  /** A whole projection; None is an exception, and its transaction leaves nothing behind. */
  function Project(render: Render, t: Tree, archives: seq<Archive>): Option<Tree> {
    if archives == [] then Some(t)
    else
      var n := |archives| - 1;
      var u := Project(render, t, archives[..n]);
      if u.None? then None else ProjectOne(render, u.value, archives[n])
  }

  // ---------------------------------------------------------------- placing and naming are kept

  lemma PutKeepsPlaced(items: map<Id, Node>, id: Id, node: Node)
    requires AllPlaced(items)
    requires node.parent.Some? && node.parent.value in items && !IsLeaf(node.parent.value)
    requires IsLeaf(id) || (node.parent == ParentOf(id) && node.status.Ready? && (id.Folder? ==> id.path != []))
    ensures AllPlaced(items[id := node])
  {
    var v := items[id := node];
    forall other | other in v ensures Placed(v, other) {
      if other != id {
        assert Placed(items, other);
      }
    }
  }

  lemma TakenAfterPut(items: map<Id, Node>, id: Id, node: Node, parent: Id, name: string, a: Id)
    ensures Taken(items[id := node], parent, name, a) ==>
              Taken(items, parent, name, a) || (a != id && node.parent == Some(parent) && node.name == name)
  {
    var v := items[id := node];
    if Taken(v, parent, name, a) {
      var b :| b in v && b != a && v[b].parent == Some(parent) && v[b].name == name;
      assert b == id || b in items;
    }
  }

  lemma HeldIsTaken(items: map<Id, Node>, a: Id, id: Id)
    requires a in items && a != id && items[a].parent.Some?
    ensures Taken(items, items[a].parent.value, items[a].name, id)
  {
  }

  lemma PutKeepsNames(items: map<Id, Node>, id: Id, node: Node)
    requires NamesUnique(items)
    requires node.parent.Some? && !Taken(items, node.parent.value, node.name, id)
    ensures NamesUnique(items[id := node])
  {
    hide Taken;
    var v := items[id := node];
    forall a | a in v && v[a].parent.Some? ensures !Taken(v, v[a].parent.value, v[a].name, a) {
      TakenAfterPut(items, id, node, v[a].parent.value, v[a].name, a);
      if a != id {
        assert NameIsOwn(items, a);
        HeldIsTaken(items, a, id);
      }
    }
  }

  /** A folder or a file that keeps its archive can be put where its name is free. */
  lemma PutKeeps(t: Tree, id: Id, node: Node)
    requires TreeOk(t)
    requires node.parent.Some? && node.parent.value in t.items && !IsLeaf(node.parent.value)
    requires IsLeaf(id) || (node.parent == ParentOf(id) && node.status.Ready? && (id.Folder? ==> id.path != []))
    requires id in t.items || !id.Projected?
    requires !Taken(t.items, node.parent.value, node.name, id)
    ensures TreeOk(Put(t, id, node))
  {
    hide AllPlaced, NamesUnique, Taken, ParentOf, Placed;
    PutKeepsPlaced(t.items, id, node);
    PutKeepsNames(t.items, id, node);
  }

  /** A new file of an archive that had none. */
  lemma AddFileKeeps(t: Tree, id: Id, archive: nat, node: Node)
    requires TreeOk(t)
    requires id !in t.items && archive !in t.archiveOf && (id == Projected(archive) || id.Upload?)
    requires node.parent.Some? && node.parent.value in t.items && !IsLeaf(node.parent.value)
    requires !Taken(t.items, node.parent.value, node.name, id)
    ensures TreeOk(Put(t, id, node).(archiveOf := t.archiveOf[archive := id]))
  {
    hide AllPlaced, NamesUnique, Taken, ParentOf, Placed;
    PutKeepsPlaced(t.items, id, node);
    PutKeepsNames(t.items, id, node);
  }

  /** `u` has everything of `t` as it was. */
  ghost predicate OnlyAdds(t: Tree, u: Tree) {
    forall id :: id in t.items ==> id in u.items && u.items[id] == t.items[id]
  }

  ghost predicate OnlyFoldersAreNew(t: Tree, u: Tree) {
    forall id :: id in u.items && id !in t.items ==> id.Folder?
  }

  lemma NextFolder(render: Render, t: Tree, dirs: seq<string>, k: nat)
    requires TreeOk(t) && 0 < k <= |dirs|
    requires FolderAt(dirs, k - 1) in t.items && FolderAt(dirs, k) !in t.items
    requires UniqueName(render, t.items, FolderAt(dirs, k - 1), dirs[k - 1], FolderAt(dirs, k)).Some?
    ensures var name := UniqueName(render, t.items, FolderAt(dirs, k - 1), dirs[k - 1], FolderAt(dirs, k)).value;
            TreeOk(Put(t, FolderAt(dirs, k), Node(Some(FolderAt(dirs, k - 1)), name, Ready)))
  {
    hide TreeOk, Taken;
    var name := UniqueName(render, t.items, FolderAt(dirs, k - 1), dirs[k - 1], FolderAt(dirs, k)).value;
    assert dirs[..k][..k - 1] == dirs[..k - 1];
    PutKeeps(t, FolderAt(dirs, k), Node(Some(FolderAt(dirs, k - 1)), name, Ready));
  }

  lemma {:induction false} WithFoldersKeeps(render: Render, t: Tree, dirs: seq<string>, k: nat)
    requires TreeOk(t) && k <= |dirs|
    requires WithFolders(render, t, dirs, k).Some?
    ensures var u := WithFolders(render, t, dirs, k).value;
            TreeOk(u) && FolderAt(dirs, k) in u.items && u.archiveOf == t.archiveOf
            && OnlyAdds(t, u) && OnlyFoldersAreNew(t, u)
  {
    hide TreeOk, UniqueName;
    if k == 0 {
      RootsAreThere(t);
    } else {
      WithFoldersKeeps(render, t, dirs, k - 1);
      var u := WithFolders(render, t, dirs, k - 1).value;
      if FolderAt(dirs, k) !in u.items {
        NextFolder(render, u, dirs, k);
      }
    }
  }

  lemma ArchiveLinks(t: Tree, archive: nat)
    requires TreeOk(t)
    ensures archive in t.archiveOf ==> t.archiveOf[archive] in t.items && IsLeaf(t.archiveOf[archive])
    ensures archive !in t.archiveOf ==> Projected(archive) !in t.items
  {
  }

  lemma WithFileKeeps(render: Render, t: Tree, archive: nat, parent: Id, desired: string)
    requires TreeOk(t) && parent in t.items && !IsLeaf(parent)
    requires WithFile(render, t, archive, parent, desired).Some?
    ensures TreeOk(WithFile(render, t, archive, parent, desired).value)
  {
    hide TreeOk, Taken, NameChoices;
    ArchiveLinks(t, archive);
    var id := if archive in t.archiveOf then t.archiveOf[archive] else Projected(archive);
    var name := UniqueName(render, t.items, parent, desired, id).value;
    if archive !in t.archiveOf {
      AddFileKeeps(t, id, archive, Node(Some(parent), name, Ready));
    } else {
      PutKeeps(t, id, t.items[id].(parent := Some(parent), name := name));
    }
  }

  lemma ProjectOneKeeps(render: Render, t: Tree, a: Archive)
    requires TreeOk(t) && ProjectOne(render, t, a).Some?
    ensures TreeOk(ProjectOne(render, t, a).value)
  {
    hide WithFile, WithFolders, TreeOk;
    if a.ready {
      var n := |a.parts.value| - 1;
      var dirs, name := a.parts.value[..n], a.parts.value[n];
      if CollectionOf(a.provider).ICloud? {
        WithFoldersKeeps(render, t, dirs, n);
        WithFileKeeps(render, WithFolders(render, t, dirs, n).value, a.id, FolderAt(dirs, n), name);
      } else {
        RootsAreThere(t);
        WithFileKeeps(render, t, a.id, In(CollectionOf(a.provider)), Numbered(a.id, name));
      }
    }
  }

  lemma RootsAreThere(t: Tree)
    requires TreeOk(t)
    ensures HasRoots(t.items)
  {
  }

  lemma {:induction false} ProjectKeeps(render: Render, t: Tree, archives: seq<Archive>)
    requires TreeOk(t) && Project(render, t, archives).Some?
    ensures TreeOk(Project(render, t, archives).value)
  {
    hide TreeOk, ProjectOne;
    if archives != [] {
      var n := |archives| - 1;
      ProjectKeeps(render, t, archives[..n]);
      ProjectOneKeeps(render, Project(render, t, archives[..n]).value, archives[n]);
    }
  }

  lemma CreatedKeeps(t: Tree, upload: nat, archive: nat, name: string)
    requires TreeOk(t)
    ensures match Created(t, upload, archive, name) case None => true case Some(u) => TreeOk(u) && OnlyAdds(t, u)
    ensures Created(t, upload, archive, name).None? <==>
            || Upload(upload) in t.items || archive in t.archiveOf
            || exists other :: other in t.items && t.items[other].parent == Some(Inbox) && t.items[other].name == name
    ensures match Created(t, upload, archive, name)
            case None => true
            case Some(u) =>
              && u.items == t.items[Upload(upload) := Node(Some(Inbox), name, Processing)]
              && u.archiveOf == t.archiveOf[archive := Upload(upload)] && u.changes == t.changes + [Upload(upload)]
  {
    hide AllPlaced, NamesUnique, HasRoots, ArchivesLinked;
    if Upload(upload) !in t.items {
      TakenByAnother(t.items, Inbox, name, Upload(upload));
    }
    hide TreeOk, Taken;
    RootsAreThere(t);
    if Created(t, upload, archive, name).Some? {
      AddFileKeeps(t, Upload(upload), archive, Node(Some(Inbox), name, Processing));
    }
  }

  lemma TakenByAnother(items: map<Id, Node>, parent: Id, name: string, id: Id)
    requires id !in items
    ensures Taken(items, parent, name, id) <==>
            exists other :: other in items && items[other].parent == Some(parent) && items[other].name == name
  {
  }

  lemma OpenItemsAreLeaves(t: Tree, id: Id)
    requires TreeOk(t) && id in t.items
    ensures !t.items[id].status.Ready? ==> IsLeaf(id)
    ensures t.items[id].parent.Some? ==> t.items[id].parent.value in t.items && !IsLeaf(t.items[id].parent.value)
    ensures IsLeaf(id) ==> t.items[id].parent.Some?
    ensures t.items[id].parent.Some? ==> !Taken(t.items, t.items[id].parent.value, t.items[id].name, id)
  {
    assert Placed(t.items, id) && NameIsOwn(t.items, id);
  }

  /** Promotion keeps the tree; the item becomes ready in the uploads collection under a name that
      starts with its archive number or was derived from such a one. */
  lemma PromotedKeeps(render: Render, t: Tree, archive: Archive, id: Id)
    requires TreeOk(t)
    ensures match Promoted(render, t, archive, id) case None => true case Some(u) => TreeOk(u)
  {
    hide TreeOk, Taken, NameChoices;
    RootsAreThere(t);
    if archive.ready && id in t.items && !t.items[id].status.Ready? && Promoted(render, t, archive, id).Some? {
      OpenItemsAreLeaves(t, id);
      var name := UniqueName(render, t.items, In(Uploads), PromotedName(archive.id, t.items[id].name), id).value;
      PutKeeps(t, id, Node(Some(In(Uploads)), name, Ready));
    }
  }

  lemma FailedKeeps(t: Tree, id: Id)
    requires TreeOk(t)
    ensures TreeOk(MarkedFailed(t, id))
    ensures var u := MarkedFailed(t, id);
            if id.Upload? && id in t.items
            then u == t.(items := t.items[id := Node(t.items[id].parent, t.items[id].name, Failed)], changes := t.changes + [id])
            else u == t
  {
    hide TreeOk, Taken;
    if id in t.items && id.Upload? {
      OpenItemsAreLeaves(t, id);
      PutKeeps(t, id, t.items[id].(status := Failed));
    }
  }

  lemma RemovalKeepsItems(items: map<Id, Node>, id: Id)
    requires AllPlaced(items) && NamesUnique(items) && IsLeaf(id)
    ensures AllPlaced(items - {id}) && NamesUnique(items - {id})
  {
    hide ParentOf;
    var v := items - {id};
    forall other | other in v ensures Placed(v, other) && NameIsOwn(v, other) {
      assert Placed(items, other) && NameIsOwn(items, other);
    }
  }

  lemma RemovedKeeps(t: Tree, id: Id)
    requires TreeOk(t)
    ensures TreeOk(Removed(t, id))
    ensures !id.Upload? || id !in t.items ==> Removed(t, id) == t
    ensures id.Upload? && id in t.items ==>
              var u := Removed(t, id);
              && u.items == t.items - {id} && u.changes == t.changes + [id]
              && forall a :: (a in u.archiveOf <==> a in t.archiveOf && t.archiveOf[a] != id)
                             && (a in u.archiveOf ==> u.archiveOf[a] == t.archiveOf[a])
  {
    hide AllPlaced, NamesUnique;
    if id in t.items && id.Upload? {
      RemovalKeepsItems(t.items, id);
    }
  }

  // ---------------------------------------------------------------- parent chains

  /** Following parents n times from here ends at the root. */
  predicate Reaches(items: map<Id, Node>, id: Id, n: nat)
    decreases n
  {
    if n == 0 then id == Root
    else id in items && items[id].parent.Some? && Reaches(items, items[id].parent.value, n - 1)
  }

  /** How deep roots and folders sit. */
  function Level(id: Id): nat {
    match id
    case Root => 0
    case Inbox => 1
    case ArchiveRoot => 1
    case In(_) => 2
    case Folder(path) => 2 + |path|
    case _ => 0
  }

  lemma {:induction false} FoldersReachRoot(items: map<Id, Node>, id: Id)
    requires AllPlaced(items) && id in items && !IsLeaf(id)
    ensures Reaches(items, id, Level(id))
    decreases Level(id)
  {
    assert Placed(items, id);
    if !id.Root? {
      var parent := items[id].parent.value;
      assert Level(parent) == Level(id) - 1;
      FoldersReachRoot(items, parent);
    }
  }

  /** From every item the parents lead up to the root, without a cycle: a root or folder sits at the
      depth its identifier says, a file one below its folder. */
  lemma EveryItemReachesRoot(t: Tree, id: Id)
    requires TreeOk(t) && id in t.items
    ensures !IsLeaf(id) ==> Reaches(t.items, id, Level(id))
    ensures IsLeaf(id) ==> t.items[id].parent.Some? && Reaches(t.items, id, 1 + Level(t.items[id].parent.value))
  {
    assert Placed(t.items, id);
    if IsLeaf(id) {
      FoldersReachRoot(t.items, t.items[id].parent.value);
    } else {
      FoldersReachRoot(t.items, id);
    }
    hide IsLeaf, Level;
  }

  // ---------------------------------------------------------------- projecting twice

  /** The name an item was given stays the first free choice as long as items are only added. */
  lemma {:induction false} FirstFreeStays(t: Tree, f: Tree, parent: Id, choices: seq<string>, id: Id, name: string)
    requires FirstFree(t.items, parent, choices, id) == Some(name)
    requires forall other :: other in t.items && other != id ==> other in f.items && f.items[other] == t.items[other]
    requires !Taken(f.items, parent, name, id)
    ensures FirstFree(f.items, parent, choices, id) == Some(name)
  {
    if choices[0] != name {
      assert Taken(t.items, parent, choices[0], id);
      TakenStays(t.items, f.items, parent, choices[0], id);
      FirstFreeStays(t, f, parent, choices[1..], id, name);
    }
  }

  lemma TakenStays(items: map<Id, Node>, later: map<Id, Node>, parent: Id, name: string, id: Id)
    requires Taken(items, parent, name, id)
    requires forall other :: other in items && other != id ==> other in later && later[other] == items[other]
    ensures Taken(later, parent, name, id)
  {
    var other :| other in items && other != id && items[other].parent == Some(parent) && items[other].name == name;
    assert other in later && later[other] == items[other];
  }

  ghost predicate Extends(t: Tree, f: Tree) {
    OnlyAdds(t, f) && forall a :: a in t.archiveOf ==> a in f.archiveOf && f.archiveOf[a] == t.archiveOf[a]
  }

  lemma {:induction false} FoldersAgain(render: Render, t: Tree, dirs: seq<string>, k: nat, f: Tree)
    requires TreeOk(t) && k <= |dirs| && WithFolders(render, t, dirs, k).Some?
    requires OnlyAdds(WithFolders(render, t, dirs, k).value, f)
    ensures WithFolders(render, f, dirs, k) == Some(f)
  {
    hide TreeOk, UniqueName;
    if k > 0 {
      var u := WithFolders(render, t, dirs, k - 1).value;
      WithFoldersKeeps(render, t, dirs, k - 1);
      WithFoldersKeeps(render, t, dirs, k);
      FoldersAgain(render, t, dirs, k - 1, f);
    }
  }

  /** A file that the run made or left alone is left alone by the next. */
  lemma FileAgain(render: Render, t: Tree, archive: nat, parent: Id, desired: string, f: Tree)
    requires TreeOk(t) && TreeOk(f)
    requires WithFile(render, t, archive, parent, desired).Some?
    requires OnlyAdds(t, WithFile(render, t, archive, parent, desired).value)
    requires Extends(WithFile(render, t, archive, parent, desired).value, f)
    ensures WithFile(render, f, archive, parent, desired) == Some(f)
  {
    hide TreeOk, Taken, NameChoices, FirstFree;
    ArchiveLinks(t, archive);
    var u := WithFile(render, t, archive, parent, desired).value;
    var id := if archive in t.archiveOf then t.archiveOf[archive] else Projected(archive);
    var name := UniqueName(render, t.items, parent, desired, id).value;
    assert u.items[id].parent == Some(parent) && u.items[id].name == name;
    assert f.archiveOf[archive] == id && f.items[id] == u.items[id];
    OpenItemsAreLeaves(f, id);
    FirstFreeStays(t, f, parent, NameChoices(render, desired, id), id, name);
  }

  /** The identifier a projection uses for an archive. */
  function FileId(t: Tree, archive: nat): Id {
    if archive in t.archiveOf then t.archiveOf[archive] else Projected(archive)
  }

  /** What one archive may change: its own file, and items that were not there. */
  ghost predicate TouchesOnly(t: Tree, u: Tree, archive: nat) {
    && (forall id :: id in t.items ==> id in u.items)
    && (forall id :: id in t.items && id != FileId(t, archive) ==> u.items[id] == t.items[id])
    && (forall a :: a in t.archiveOf ==> a in u.archiveOf && u.archiveOf[a] == t.archiveOf[a])
    && (forall a :: a in u.archiveOf && a !in t.archiveOf ==> a == archive)
  }

  lemma OneFolderMade(render: Render, t: Tree, dirs: seq<string>, k: nat)
    requires 0 < k <= |dirs| && WithFolders(render, t, dirs, k).Some?
    ensures WithFolders(render, t, dirs, k - 1).Some?
    ensures var u, v, id := WithFolders(render, t, dirs, k - 1).value, WithFolders(render, t, dirs, k).value, Folder(dirs[..k]);
            && id in v.items && (id in u.items ==> v == u)
            && (id !in u.items ==> v.items == u.items[id := v.items[id]] && MadeAt(render, v.items[id], id, dirs, k, k))
  {
    hide UniqueName, Names.Suffixed, Taken;
    var u := WithFolders(render, t, dirs, k - 1).value;
    NamesInOrder(render, u.items, FolderAt(dirs, k - 1), dirs[k - 1], FolderAt(dirs, k));
  }

  lemma MadeForMore(render: Render, node: Node, id: Id, dirs: seq<string>, k: nat)
    requires 0 < k <= |dirs| && MadeFor(render, node, id, dirs, k - 1)
    ensures MadeFor(render, node, id, dirs, k)
  {
    var j: nat :| MadeAt(render, node, id, dirs, k - 1, j);
    assert MadeAt(render, node, id, dirs, k, j);
  }

  /** The folders of a path, once it was walked: each is in the tree, and only these are new. */
  lemma {:induction false} FoldersMade(render: Render, t: Tree, dirs: seq<string>, k: nat)
    requires k <= |dirs| && WithFolders(render, t, dirs, k).Some?
    ensures var u := WithFolders(render, t, dirs, k).value;
            && (forall j :: 0 < j <= k ==> Folder(dirs[..j]) in u.items)
            && (forall id :: id in u.items && id !in t.items ==> MadeFor(render, u.items[id], id, dirs, k))
            && OnlyAdds(t, u)
  {
    hide MadeAt, UniqueName, FolderAt;
    if k > 0 {
      OneFolderMade(render, t, dirs, k);
      FoldersMade(render, t, dirs, k - 1);
      var u := WithFolders(render, t, dirs, k - 1).value;
      var v := WithFolders(render, t, dirs, k).value;
      hide WithFolders;
      forall id | id in v.items && id !in t.items ensures MadeFor(render, v.items[id], id, dirs, k) {
        if id in u.items {
          MadeForMore(render, u.items[id], id, dirs, k);
        } else {
          assert MadeAt(render, v.items[id], id, dirs, k, k);
        }
      }
    }
  }

  /** A ready folder for the first j directories of the path, under the folder before it. */
  predicate MadeAt(render: Render, node: Node, id: Id, dirs: seq<string>, k: nat, j: nat) {
    && 0 < j <= k <= |dirs| && id == Folder(dirs[..j]) && node.status.Ready?
    && node.parent == Some(if j == 1 then In(ICloud) else Folder(dirs[..j - 1]))
    && NamedFor(render, node.name, dirs[j - 1], id)
  }

  ghost predicate MadeFor(render: Render, node: Node, id: Id, dirs: seq<string>, k: nat) {
    exists j: nat :: MadeAt(render, node, id, dirs, k, j)
  }

  /** Where an archive belongs: in its folder of the photo library under its own name, or in the collection of
      its provider with its number in front. */
  predicate AtHome(render: Render, t: Tree, a: Archive) {
    && a.parts.Some? && a.parts.value != []
    && a.id in t.archiveOf && t.archiveOf[a.id] in t.items
    && var id, n := t.archiveOf[a.id], |a.parts.value| - 1;
    && t.items[id].parent ==
       Some(if a.provider == "icloud_photos" then (if n == 0 then In(ICloud) else Folder(a.parts.value[..n]))
            else if a.provider == "file_provider_upload" then In(Uploads) else In(Local))
    && NamedFor(render, t.items[id].name,
                if a.provider == "icloud_photos" then a.parts.value[n]
                else CursorCodec.Decimal(a.id) + "-" + a.parts.value[n], id)
  }

  lemma FileIsPlaced(render: Render, t: Tree, archive: nat, parent: Id, desired: string)
    requires WithFile(render, t, archive, parent, desired).Some?
    ensures var u := WithFile(render, t, archive, parent, desired).value;
            && archive in u.archiveOf && u.archiveOf[archive] in u.items
            && u.items[u.archiveOf[archive]].parent == Some(parent)
            && NamedFor(render, u.items[u.archiveOf[archive]].name, desired, u.archiveOf[archive])
  {
    var id := if archive in t.archiveOf then t.archiveOf[archive] else Projected(archive);
    NamesInOrder(render, t.items, parent, desired, id);
    hide UniqueName, Taken, Names.Suffixed;
  }

  lemma OneIsHome(render: Render, t: Tree, a: Archive)
    requires a.ready && ProjectOne(render, t, a).Some?
    ensures AtHome(render, ProjectOne(render, t, a).value, a)
  {
    hide WithFile, WithFolders, NamedFor, CursorCodec.Decimal;
    var n := |a.parts.value| - 1;
    var dirs, name := a.parts.value[..n], a.parts.value[n];
    if a.provider == "icloud_photos" {
      FileIsPlaced(render, WithFolders(render, t, dirs, n).value, a.id, FolderAt(dirs, n), name);
      assert dirs[..n] == dirs;
    } else {
      FileIsPlaced(render, t, a.id, In(CollectionOf(a.provider)), Numbered(a.id, name));
    }
  }

  /** After a projection every ready archive has its file where it belongs. */
  lemma {:induction false} ProjectedAreHome(render: Render, t: Tree, archives: seq<Archive>, k: nat)
    requires TreeOk(t) && DistinctArchives(archives) && Project(render, t, archives).Some?
    requires k < |archives| && archives[k].ready
    ensures AtHome(render, Project(render, t, archives).value, archives[k])
  {
    hide TreeOk, ProjectOne, AtHome;
    var n := |archives| - 1;
    var v := Project(render, t, archives[..n]).value;
    if k == n {
      OneIsHome(render, v, archives[n]);
    } else {
      assert archives[..n][k] == archives[k];
      ProjectedAreHome(render, t, archives[..n], k);
      ProjectKeeps(render, t, archives[..n]);
      OneTouches(render, v, archives[n]);
      HomeStays(render, v, ProjectOne(render, v, archives[n]).value, archives[k], archives[n].id);
    }
  }

  lemma HomeStays(render: Render, v: Tree, u: Tree, a: Archive, other: nat)
    requires TreeOk(v) && AtHome(render, v, a) && TouchesOnly(v, u, other) && a.id != other
    ensures AtHome(render, u, a)
  {
    hide TreeOk, TouchesOnly, NamedFor, CursorCodec.Decimal;
    FileStays(v, u, a.id, other);
  }

  lemma FileStays(v: Tree, u: Tree, a: nat, other: nat)
    requires TreeOk(v) && a in v.archiveOf && v.archiveOf[a] in v.items && TouchesOnly(v, u, other) && a != other
    ensures a in u.archiveOf && u.archiveOf[a] == v.archiveOf[a]
    ensures v.archiveOf[a] in u.items && u.items[v.archiveOf[a]] == v.items[v.archiveOf[a]]
  {
    hide TreeOk, FileId;
    OthersHaveOtherFiles(v, a, other);
  }

  lemma FileTouches(render: Render, t: Tree, archive: nat, parent: Id, desired: string)
    requires TreeOk(t) && WithFile(render, t, archive, parent, desired).Some?
    ensures TouchesOnly(t, WithFile(render, t, archive, parent, desired).value, archive)
  {
    hide TreeOk, UniqueName;
    ArchiveLinks(t, archive);
  }

  lemma OneTouches(render: Render, t: Tree, a: Archive)
    requires TreeOk(t) && ProjectOne(render, t, a).Some?
    ensures TouchesOnly(t, ProjectOne(render, t, a).value, a.id)
  {
    hide TreeOk, WithFile, WithFolders;
    if a.ready {
      var n := |a.parts.value| - 1;
      var dirs, name := a.parts.value[..n], a.parts.value[n];
      if CollectionOf(a.provider).ICloud? {
        var u := WithFolders(render, t, dirs, n).value;
        WithFoldersKeeps(render, t, dirs, n);
        FileTouches(render, u, a.id, FolderAt(dirs, n), name);
        assert FileId(u, a.id) == FileId(t, a.id);
      } else {
        FileTouches(render, t, a.id, In(CollectionOf(a.provider)), Numbered(a.id, name));
      }
    }
  }

  predicate Mentions(archives: seq<Archive>, id: nat) {
    exists j :: 0 <= j < |archives| && archives[j].id == id
  }

  /** A run leaves alone what none of its archives owns. */
  ghost predicate RunTouchesOnly(t: Tree, u: Tree, archives: seq<Archive>) {
    && (forall id :: id in t.items ==> id in u.items)
    && (forall a :: a in t.archiveOf && !Mentions(archives, a) && t.archiveOf[a] in t.items ==>
          a in u.archiveOf && u.archiveOf[a] == t.archiveOf[a] && t.archiveOf[a] in u.items
          && u.items[t.archiveOf[a]] == t.items[t.archiveOf[a]])
    && (forall a :: a in t.archiveOf ==> a in u.archiveOf && u.archiveOf[a] == t.archiveOf[a])
    && (forall a :: a in u.archiveOf && a !in t.archiveOf ==> Mentions(archives, a))
  }

  lemma OthersHaveOtherFiles(t: Tree, a: nat, archive: nat)
    requires TreeOk(t) && a in t.archiveOf && a != archive
    ensures t.archiveOf[a] != FileId(t, archive)
  {
  }

  lemma MentionsOneMore(archives: seq<Archive>, a: nat)
    requires archives != []
    ensures Mentions(archives, a) <==> Mentions(archives[..|archives| - 1], a) || a == archives[|archives| - 1].id
  {
    var n := |archives| - 1;
    assert archives == archives[..n] + [archives[n]];
    forall j | 0 <= j < n ensures archives[..n][j].id == archives[j].id {
    }
  }

  lemma StepRunTouches(t: Tree, v: Tree, u: Tree, archives: seq<Archive>)
    requires archives != [] && TreeOk(v)
    requires RunTouchesOnly(t, v, archives[..|archives| - 1])
    requires TouchesOnly(v, u, archives[|archives| - 1].id)
    ensures RunTouchesOnly(t, u, archives)
  {
    hide TreeOk, Mentions, FileId;
    var n := |archives| - 1;
    forall a ensures Mentions(archives, a) <==> Mentions(archives[..n], a) || a == archives[n].id {
      MentionsOneMore(archives, a);
    }
    forall a | a in v.archiveOf && a != archives[n].id ensures v.archiveOf[a] != FileId(v, archives[n].id) {
      OthersHaveOtherFiles(v, a, archives[n].id);
    }
  }

  lemma {:induction false} RunTouches(render: Render, t: Tree, archives: seq<Archive>)
    requires TreeOk(t) && Project(render, t, archives).Some?
    ensures RunTouchesOnly(t, Project(render, t, archives).value, archives)
  {
    hide TreeOk, ProjectOne, RunTouchesOnly, TouchesOnly;
    if archives == [] {
      NothingTouched(t);
    } else {
      var n := |archives| - 1;
      var v := Project(render, t, archives[..n]).value;
      RunTouches(render, t, archives[..n]);
      ProjectKeeps(render, t, archives[..n]);
      OneTouches(render, v, archives[n]);
      StepRunTouches(t, v, ProjectOne(render, v, archives[n]).value, archives);
    }
  }

  lemma NothingTouched(t: Tree)
    ensures RunTouchesOnly(t, t, [])
  {
  }

  ghost predicate DistinctArchives(archives: seq<Archive>) {
    forall i, j :: 0 <= i < j < |archives| ==> archives[i].id != archives[j].id
  }

  /** If a run as a whole left every earlier item as it was, so did its last step. */
  lemma LastStepOnlyAdds(t: Tree, v: Tree, u: Tree, archives: seq<Archive>)
    requires archives != [] && DistinctArchives(archives) && TreeOk(t) && TreeOk(v)
    requires RunTouchesOnly(t, v, archives[..|archives| - 1])
    requires TouchesOnly(v, u, archives[|archives| - 1].id)
    requires OnlyAdds(t, u)
    ensures OnlyAdds(v, u) && OnlyAdds(t, v) && Extends(v, u)
  {
    hide AllPlaced, NamesUnique, HasRoots;
    var n := |archives| - 1;
    var a := archives[n].id;
    assert !Mentions(archives[..n], a);
    var x := FileId(v, a);
    if x in v.items {
      ArchiveLinks(v, a);
      assert a in t.archiveOf && x == t.archiveOf[a];
      assert v.items[x] == t.items[x];
    }
    assert OnlyAdds(v, u);
  }

  lemma OneAgain(render: Render, t: Tree, a: Archive, f: Tree)
    requires TreeOk(t) && TreeOk(f) && ProjectOne(render, t, a).Some?
    requires OnlyAdds(t, ProjectOne(render, t, a).value) && Extends(ProjectOne(render, t, a).value, f)
    ensures ProjectOne(render, f, a) == Some(f)
  {
    hide TreeOk, WithFile, WithFolders;
    if a.ready {
      var n := |a.parts.value| - 1;
      var dirs, name := a.parts.value[..n], a.parts.value[n];
      if CollectionOf(a.provider).ICloud? {
        var u := WithFolders(render, t, dirs, n).value;
        var w := WithFile(render, u, a.id, FolderAt(dirs, n), name).value;
        WithFoldersKeeps(render, t, dirs, n);
        FileTouches(render, u, a.id, FolderAt(dirs, n), name);
        FoldersStay(t, u, w, a.id);
        FoldersAgain(render, t, dirs, n, f);
        FileAgain(render, u, a.id, FolderAt(dirs, n), name, f);
      } else {
        FileAgain(render, t, a.id, In(CollectionOf(a.provider)), Numbered(a.id, name), f);
      }
    }
  }

  /** The file step does not touch the folders just made. */
  lemma FoldersStay(t: Tree, u: Tree, w: Tree, archive: nat)
    requires TreeOk(t) && OnlyAdds(t, u) && OnlyFoldersAreNew(t, u) && u.archiveOf == t.archiveOf
    requires TouchesOnly(u, w, archive) && OnlyAdds(t, w)
    ensures OnlyAdds(u, w)
  {
    hide AllPlaced, NamesUnique;
    ArchiveLinks(t, archive);
  }

  lemma {:induction false} RunAgain(render: Render, t: Tree, archives: seq<Archive>, f: Tree)
    requires TreeOk(t) && TreeOk(f) && DistinctArchives(archives)
    requires Project(render, t, archives).Some?
    requires OnlyAdds(t, Project(render, t, archives).value) && Extends(Project(render, t, archives).value, f)
    ensures Project(render, f, archives) == Some(f)
  {
    hide TreeOk, ProjectOne, RunTouchesOnly, TouchesOnly;
    if archives != [] {
      var n := |archives| - 1;
      var v := Project(render, t, archives[..n]).value;
      var u := ProjectOne(render, v, archives[n]).value;
      RunTouches(render, t, archives[..n]);
      ProjectKeeps(render, t, archives[..n]);
      OneTouches(render, v, archives[n]);
      LastStepOnlyAdds(t, v, u, archives);
      assert Extends(v, f);
      RunAgain(render, t, archives[..n], f);
      OneAgain(render, v, archives[n], f);
    }
  }

  /** A projection that renamed or moved no existing item is a fixed point: running it again at once
      changes no item and records no change. */
  lemma ProjectionIsFixedPoint(render: Render, t: Tree, archives: seq<Archive>)
    requires TreeOk(t) && DistinctArchives(archives)
    requires Project(render, t, archives).Some?
    requires OnlyAdds(t, Project(render, t, archives).value)
    ensures var u := Project(render, t, archives).value; Project(render, u, archives) == Some(u)
  {
    hide TreeOk, Project;
    ProjectKeeps(render, t, archives);
    RunAgain(render, t, archives, Project(render, t, archives).value);
  }

  // ---------------------------------------------------------------- promotion against projection

  /** The archive of an upload called `name`. */
  predicate IsArchiveOf(a: Archive, name: string) {
    a.ready && a.provider == "file_provider_upload" && a.parts == Some(["Uploads", name])
  }

  lemma UploadProjection(render: Render, t: Tree, a: Archive, name: string)
    requires IsArchiveOf(a, name)
    ensures ProjectOne(render, t, a) == WithFile(render, t, a.id, In(Uploads), Numbered(a.id, name))
  {
    hide WithFile;
  }

  lemma SuffixedLength(name: string, suffix: string)
    ensures |Names.Suffixed(name, suffix)| == |name| + 1 + |suffix|
  {
  }

  function Pow10(k: nat): nat {
    if k == 0 then 1 else 10 * Pow10(k - 1)
  }

  lemma {:induction false} DecimalLength(n: nat, k: nat)
    requires k > 0 && n < Pow10(k)
    ensures |CursorCodec.Decimal(n)| <= k
  {
    if n >= 10 {
      DecimalLength(n / 10, k - 1);
    }
  }

  /** The identifier column is a signed 64-bit integer. */
  const MAX_ID := 0x7FFF_FFFF_FFFF_FFFF

  lemma NumberIsShort(archive: nat)
    requires archive <= MAX_ID
    ensures |CursorCodec.Decimal(archive)| <= 19
  {
    assert Pow10(5) == 100000;
    assert Pow10(10) == 100000 * Pow10(5);
    assert Pow10(15) == 100000 * Pow10(10);
    assert Pow10(19) == 10000 * Pow10(15);
    DecimalLength(archive, 19);
  }

  /** Whether a name is taken by others does not depend on the item itself. */
  lemma TakenIgnoresSelf(items: map<Id, Node>, id: Id, node: Node, parent: Id, name: string)
    ensures Taken(items[id := node], parent, name, id) <==> Taken(items, parent, name, id)
  {
    var v := items[id := node];
    forall other | other != id ensures other in v <==> other in items {
    }
  }

  lemma {:induction false} FirstFreeIgnoresSelf(items: map<Id, Node>, id: Id, node: Node, parent: Id, choices: seq<string>)
    ensures FirstFree(items[id := node], parent, choices, id) == FirstFree(items, parent, choices, id)
  {
    hide Taken;
    if choices != [] {
      TakenIgnoresSelf(items, id, node, parent, choices[0]);
      FirstFreeIgnoresSelf(items, id, node, parent, choices[1..]);
    }
  }

  /** A promoted upload is where projection wants it exactly when projection derives the name it got. */
  lemma StaysWhereNamesAgree(render: Render, t: Tree, a: Archive, id: Id, name: string)
    requires TreeOk(t) && IsArchiveOf(a, name)
    requires id in t.items && t.items[id].name == name && !t.items[id].status.Ready?
    requires a.id in t.archiveOf && t.archiveOf[a.id] == id && Promoted(render, t, a, id).Some?
    ensures var u := Promoted(render, t, a, id).value;
            ProjectOne(render, u, a) == Some(u) <==>
            UniqueName(render, t.items, In(Uploads), Numbered(a.id, name), id)
            == UniqueName(render, t.items, In(Uploads), PromotedName(a.id, name), id)
  {
    hide Taken, TreeOk, ProjectOne, FirstFree, NameChoices, PromotedName;
    var u := Promoted(render, t, a, id).value;
    UploadProjection(render, u, a, name);
    FirstFreeIgnoresSelf(t.items, id, u.items[id], In(Uploads), NameChoices(render, Numbered(a.id, name), id));
  }

  /** Of the names derived from `name` and from `number-name` only one pair can coincide. */
  lemma NumberedChoicesDiffer(render: Render, id: Id, archive: nat, name: string)
    requires |render(id)| == 36 && archive <= MAX_ID
    ensures var c, d := NameChoices(render, name, id), NameChoices(render, Numbered(archive, name), id);
            forall i, j :: 0 <= i < 3 && 0 <= j < 3 && c[i] == d[j] ==> i == 1 && j == 0
  {
    hide CursorCodec.Decimal, Names.Suffixed;
    NumberIsShort(archive);
    var numbered := Numbered(archive, name);
    var short := Names.Prefix(render(id), 8);
    SuffixedLength(name, short);
    SuffixedLength(name, render(id));
    SuffixedLength(numbered, short);
    SuffixedLength(numbered, render(id));
    assert |short| == 8 && 1 <= |CursorCodec.Decimal(archive)| <= 19;
  }

  /** Promotion and projection agree on an upload exactly when its own name does not start with its archive
      number, or when that name is taken among the uploads and the name derived from it is, by chance, the
      one projection asks for, and free. Otherwise the next projection renames it and records a change. */
  lemma PromotionAgreesIff(render: Render, t: Tree, a: Archive, id: Id, name: string)
    requires TreeOk(t) && IsArchiveOf(a, name)
    requires id in t.items && t.items[id].name == name && !t.items[id].status.Ready?
    requires a.id in t.archiveOf && t.archiveOf[a.id] == id && Promoted(render, t, a, id).Some?
    requires |render(id)| == 36 && a.id <= MAX_ID
    ensures var u := Promoted(render, t, a, id).value;
            var numbered := Numbered(a.id, name);
            ProjectOne(render, u, a) == Some(u) <==>
            !(CursorCodec.Decimal(a.id) + "-" <= name)
            || (Taken(t.items, In(Uploads), name, id) && !Taken(t.items, In(Uploads), numbered, id)
                && numbered == Names.Suffixed(name, Names.Prefix(render(id), 8)))
  {
    hide Taken, TreeOk, ProjectOne, Promoted, FirstFree, CursorCodec.Decimal, Names.Suffixed;
    StaysWhereNamesAgree(render, t, a, id, name);
    if CursorCodec.Decimal(a.id) + "-" <= name {
      PromotedNameExists(render, t, a, id, name);
      NumberedChoicesDiffer(render, id, a.id, name);
      NamesInOrder(render, t.items, In(Uploads), name, id);
      NamesInOrder(render, t.items, In(Uploads), Numbered(a.id, name), id);
      hide UniqueName;
    }
  }

  lemma PromotedNameExists(render: Render, t: Tree, a: Archive, id: Id, name: string)
    requires a.ready && id in t.items && t.items[id].name == name && !t.items[id].status.Ready?
    requires Promoted(render, t, a, id).Some?
    ensures UniqueName(render, t.items, In(Uploads), PromotedName(a.id, name), id).Some?
  {
    hide UniqueName, PromotedName;
  }
}
