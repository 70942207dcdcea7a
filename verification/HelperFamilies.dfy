/** Test files grouped into families by the helper keys they share. */
module HelperFamilies {
  import opened UnionFind

  datatype Surface = Surface(file: string, localHelperClusterKeys: seq<string>, importedHelperModules: seq<string>)

  function FileNode(file: string): (id: Id)
    ensures IsFileNode(id) && id[5..] == file
  {
    "file:" + file
  }

  predicate IsFileNode(id: Id) {
    |id| >= 5 && id[..5] == "file:"
  }

  function Prefixed(prefix: string, names: seq<string>): (keys: seq<Id>)
    ensures |keys| == |names|
  {
    seq(|names|, i requires 0 <= i < |names| => prefix + names[i])
  }

  /** Every element of a file's helper surface, as a node of the union-find. */
  function SurfaceKeys(surface: Surface): (keys: seq<Id>)
    ensures forall key | key in keys :: !IsFileNode(key)
  {
    var locals := Prefixed("key:local:", surface.localHelperClusterKeys);
    var modules := Prefixed("key:module:", surface.importedHelperModules);
    assert forall key | key in locals + modules :: key[0] == 'k';
    locals + modules
  }

  // ---- What a family is, without any union-find ----

  predicate HasKey(surfaces: seq<Surface>, file: string, key: Id) {
    exists surface | surface in surfaces :: surface.file == file && key in SurfaceKeys(surface)
  }

  ghost predicate ShareKey(surfaces: seq<Surface>, f: string, g: string) {
    exists key :: HasKey(surfaces, f, key) && HasKey(surfaces, g, key)
  }

  /** Each file of the chain shares a key with the next one. */
  ghost predicate FileChain(surfaces: seq<Surface>, chain: seq<string>, f: string, g: string) {
    && chain != [] && chain[0] == f && chain[|chain| - 1] == g
    && (forall k {:trigger chain[k]} | 0 <= k < |chain| - 1 :: ShareKey(surfaces, chain[k], chain[k + 1]))
  }

  ghost predicate SameFamily(surfaces: seq<Surface>, f: string, g: string) {
    exists chain :: FileChain(surfaces, chain, f, g)
  }

  predicate IsFile(surfaces: seq<Surface>, file: string) {
    exists surface | surface in surfaces :: surface.file == file
  }

  // ---- The links between files and keys ----

  ghost function LinksOf(surfaces: seq<Surface>): set<(Id, Id)> {
    set surface, key | surface in surfaces && key in SurfaceKeys(surface) :: (FileNode(surface.file), key)
  }

  ghost function NodesOf(surfaces: seq<Surface>): set<Id> {
    (set surface | surface in surfaces :: FileNode(surface.file)) +
    (set surface, key | surface in surfaces && key in SurfaceKeys(surface) :: key)
  }

  lemma LinkMeansKey(surfaces: seq<Surface>, a: Id, b: Id)
    requires (a, b) in LinksOf(surfaces)
    ensures IsFileNode(a) && !IsFileNode(b) && HasKey(surfaces, a[5..], b)
  {
  }

  lemma KeyMeansLink(surfaces: seq<Surface>, file: string, key: Id)
    requires HasKey(surfaces, file, key)
    ensures (FileNode(file), key) in LinksOf(surfaces)
  {
  }

  lemma SharedKeyConnects(surfaces: seq<Surface>, f: string, g: string)
    requires ShareKey(surfaces, f, g)
    ensures Connected(LinksOf(surfaces), FileNode(f), FileNode(g))
  {
    hide LinksOf, HasKey, FileNode;
    var links := LinksOf(surfaces);
    var key :| HasKey(surfaces, f, key) && HasKey(surfaces, g, key);
    KeyMeansLink(surfaces, f, key);
    KeyMeansLink(surfaces, g, key);
    LinkConnects(links, FileNode(f), key);
    LinkConnects(links, key, FileNode(g));
    ConnectedTrans(links, FileNode(f), key, FileNode(g));
  }

  lemma {:induction false} FamilyConnects(surfaces: seq<Surface>, chain: seq<string>, f: string, g: string)
    requires FileChain(surfaces, chain, f, g)
    ensures Connected(LinksOf(surfaces), FileNode(f), FileNode(g))
    decreases |chain|
  {
    hide LinksOf, FileNode, Connected, ShareKey;
    if |chain| == 1 {
      ConnectedRefl(LinksOf(surfaces), FileNode(f));
    } else {
      SharedKeyConnects(surfaces, chain[0], chain[1]);
      forall k | 0 <= k < |chain[1..]| - 1
        ensures ShareKey(surfaces, chain[1..][k], chain[1..][k + 1])
      {
        assert chain[1..][k] == chain[k + 1];
      }
      FamilyConnects(surfaces, chain[1..], chain[1], g);
      ConnectedTrans(LinksOf(surfaces), FileNode(f), FileNode(chain[1]), FileNode(g));
    }
  }

  /** Two links in a row go from a file over a key to a file that shares it. */
  lemma TwoLinksShareKey(surfaces: seq<Surface>, a: Id, b: Id, c: Id)
    requires Linked(LinksOf(surfaces), a, b) && Linked(LinksOf(surfaces), b, c) && IsFileNode(a)
    ensures !IsFileNode(b) && IsFileNode(c) && ShareKey(surfaces, a[5..], c[5..])
  {
    hide LinksOf, HasKey;
    if (a, b) in LinksOf(surfaces) {
      LinkMeansKey(surfaces, a, b);
    } else {
      LinkMeansKey(surfaces, b, a);
    }
    if (b, c) in LinksOf(surfaces) {
      LinkMeansKey(surfaces, b, c);
    } else {
      LinkMeansKey(surfaces, c, b);
    }
  }

  lemma {:induction false} ConnectionIsFamily(surfaces: seq<Surface>, chain: seq<Id>, a: Id, b: Id)
    requires ChainBetween(LinksOf(surfaces), chain, a, b) && IsFileNode(a) && IsFileNode(b)
    ensures SameFamily(surfaces, a[5..], b[5..])
    decreases |chain|
  {
    hide LinksOf, ShareKey;
    var links := LinksOf(surfaces);
    if |chain| == 1 {
      assert FileChain(surfaces, [a[5..]], a[5..], b[5..]);
    } else {
      assert Linked(links, chain[0], chain[0 + 1]);
      if |chain| == 2 {
        OneLinkMixes(surfaces, chain[0], chain[1]);
      } else {
        assert Linked(links, chain[1], chain[1 + 1]);
        TwoLinksShareKey(surfaces, chain[0], chain[1], chain[2]);
        TailChain(links, chain, 2);
        ConnectionIsFamily(surfaces, chain[2..], chain[2], b);
        PrependFile(surfaces, a[5..], chain[2][5..], b[5..]);
      }
    }
  }

  lemma OneLinkMixes(surfaces: seq<Surface>, a: Id, b: Id)
    requires Linked(LinksOf(surfaces), a, b)
    ensures IsFileNode(a) <==> !IsFileNode(b)
  {
    hide LinksOf;
    if (a, b) in LinksOf(surfaces) {
      LinkMeansKey(surfaces, a, b);
    } else {
      LinkMeansKey(surfaces, b, a);
    }
  }

  lemma TailChain(links: set<(Id, Id)>, chain: seq<Id>, n: nat)
    requires IsChain(links, chain) && n < |chain|
    ensures ChainBetween(links, chain[n..], chain[n], chain[|chain| - 1])
  {
    var tail := chain[n..];
    forall k | 0 <= k < |tail| - 1
      ensures Linked(links, tail[k], tail[k + 1])
    {
      assert Linked(links, chain[n + k], chain[n + k + 1]);
    }
  }

  lemma PrependFile(surfaces: seq<Surface>, f: string, g: string, h: string)
    requires ShareKey(surfaces, f, g) && SameFamily(surfaces, g, h)
    ensures SameFamily(surfaces, f, h)
  {
    hide ShareKey;
    var chain :| FileChain(surfaces, chain, g, h);
    var longer := [f] + chain;
    forall k {:trigger longer[k]} | 0 <= k < |longer| - 1
      ensures ShareKey(surfaces, longer[k], longer[k + 1])
    {
      if k > 0 {
        assert longer[k] == chain[k - 1];
      }
    }
    assert FileChain(surfaces, longer, f, h);
  }

  /** Files are connected by recorded unions exactly when a chain of shared keys links them. */
  lemma ConnectedFilesAreFamily(surfaces: seq<Surface>, f: string, g: string)
    ensures Connected(LinksOf(surfaces), FileNode(f), FileNode(g)) <==> SameFamily(surfaces, f, g)
  {
    if Connected(LinksOf(surfaces), FileNode(f), FileNode(g)) {
      var chain :| ChainBetween(LinksOf(surfaces), chain, FileNode(f), FileNode(g));
      ConnectionIsFamily(surfaces, chain, FileNode(f), FileNode(g));
    }
    if SameFamily(surfaces, f, g) {
      var chain :| FileChain(surfaces, chain, f, g);
      FamilyConnects(surfaces, chain, f, g);
    }
  }

  // ---- The grouping itself ----

  ghost function LinksTo(id: Id, keys: seq<Id>): set<(Id, Id)> {
    set key | key in keys :: (id, key)
  }

  lemma NoLinks(id: Id, keys: seq<Id>)
    ensures keys == [] ==> LinksTo(id, keys) == {} && SetOf(keys) == {}
  {
  }

  lemma OneMoreLink(id: Id, keys: seq<Id>, k: nat)
    requires k < |keys|
    ensures LinksTo(id, keys[..k + 1]) == LinksTo(id, keys[..k]) + {(id, keys[k])}
    ensures SetOf(keys[..k + 1]) == SetOf(keys[..k]) + {keys[k]}
  {
    assert keys[..k + 1] == keys[..k] + [keys[k]];
  }

  lemma AddSurface(surfaces: seq<Surface>, surface: Surface)
    ensures LinksOf(surfaces + [surface]) == LinksOf(surfaces) + LinksTo(FileNode(surface.file), SurfaceKeys(surface))
    ensures NodesOf(surfaces + [surface]) ==
            NodesOf(surfaces) + {FileNode(surface.file)} + SetOf(SurfaceKeys(surface))
  {
    hide SurfaceKeys, FileNode;
    var all := surfaces + [surface];
    assert surface in all;
    assert forall s | s in surfaces :: s in all;
  }

  method AddFile(uf: Forest, fileNode: Id, keys: seq<Id>)
    requires uf.Valid()
    modifies uf
    ensures uf.Valid() && uf.links == old(uf.links) + LinksTo(fileNode, keys)
    ensures uf.parent.Keys == old(uf.parent.Keys) + {fileNode} + SetOf(keys)
  {
    hide Rooted, Faithful, LinksTo, SetOf;
    NoLinks(fileNode, keys[..0]);
    uf.Add(fileNode);
    for k := 0 to |keys|
      invariant uf.Valid() && uf.links == old(uf.links) + LinksTo(fileNode, keys[..k])
      invariant uf.parent.Keys == old(uf.parent.Keys) + {fileNode} + SetOf(keys[..k])
    {
      uf.Add(keys[k]);
      uf.Union(fileNode, keys[k]);
      OneMoreLink(fileNode, keys, k);
    }
    assert keys[..|keys|] == keys;
  }

  method BuildUnionFind(surfaces: seq<Surface>) returns (uf: Forest)
    ensures fresh(uf) && uf.Valid()
    ensures uf.links == LinksOf(surfaces) && uf.parent.Keys == NodesOf(surfaces)
  {
    hide SurfaceKeys, FileNode, LinksOf, NodesOf, Rooted, Faithful;
    uf := new Forest();
    NoSurface();
    for i := 0 to |surfaces|
      invariant fresh(uf) && uf.Valid()
      invariant uf.links == LinksOf(surfaces[..i]) && uf.parent.Keys == NodesOf(surfaces[..i])
    {
      AddFile(uf, FileNode(surfaces[i].file), SurfaceKeys(surfaces[i]));
      AddSurface(surfaces[..i], surfaces[i]);
      assert surfaces[..i + 1] == surfaces[..i] + [surfaces[i]];
    }
    assert surfaces[..|surfaces|] == surfaces;
  }

  lemma NoSurface()
    ensures forall surfaces: seq<Surface> | surfaces == [] :: LinksOf(surfaces) == {} && NodesOf(surfaces) == {}
  {
  }

  datatype Group = Group(fileNodes: set<Id>, keyNodes: set<Id>)

  datatype Family = Family(files: set<string>, keys: set<Id>)

  /** The ids of one class, files apart from keys. */
  ghost function GroupOf(root: map<Id, Id>, ids: seq<Id>, r: Id): Group
    requires forall id | id in ids :: id in root
  {
    Group(set id | id in ids && root[id] == r && IsFileNode(id),
          set id | id in ids && root[id] == r && !IsFileNode(id))
  }

  ghost predicate GroupsAre(root: map<Id, Id>, ids: seq<Id>, groups: map<Id, Group>)
    requires forall id | id in ids :: id in root
  {
    && (forall id | id in ids :: root[id] in groups)
    && (forall r | r in groups :: groups[r] == GroupOf(root, ids, r) && exists id | id in ids :: root[id] == r)
  }

  method GroupIds(uf: Forest) returns (groups: map<Id, Group>, ghost ids: seq<Id>)
    requires uf.Valid()
    modifies uf
    ensures uf.Valid() && uf.links == old(uf.links) && uf.root == old(uf.root)
    ensures (set id | id in ids) == uf.root.Keys
    ensures GroupsAre(uf.root, ids, groups)
  {
    hide Rooted, Faithful, GroupsAre;
    SameKeys(uf.parent, uf.root, uf.depth);
    var order := uf.Ids();
    ids := order;
    groups := map[];
    NoGroups(uf.root);
    for k := 0 to |order|
      invariant uf.Valid() && uf.links == old(uf.links) && uf.root == old(uf.root)
      invariant (set id | id in order) == uf.root.Keys
      invariant forall id | id in order :: id in uf.root
      invariant GroupsAre(uf.root, order[..k], groups)
    {
      var id := order[k];
      assert id in uf.root;
      var root := uf.Find(id);
      var group := if root in groups then groups[root] else Group({}, {});
      group := if IsFileNode(id) then group.(fileNodes := group.fileNodes + {id})
               else group.(keyNodes := group.keyNodes + {id});
      GroupGrows(uf.root, order[..k], id, groups, group);
      groups := groups[root := group];
      assert order[..k + 1] == order[..k] + [id];
    }
    assert order[..|order|] == order;
  }

  lemma NoGroups(root: map<Id, Id>)
    ensures forall ids: seq<Id> | ids == [] :: GroupsAre(root, ids, map[])
  {
  }

  lemma GroupGrows(root: map<Id, Id>, ids: seq<Id>, id: Id, groups: map<Id, Group>, group: Group)
    requires id in root && (forall other | other in ids :: other in root) && GroupsAre(root, ids, groups)
    requires var before := if root[id] in groups then groups[root[id]] else Group({}, {});
             group == if IsFileNode(id) then before.(fileNodes := before.fileNodes + {id})
                      else before.(keyNodes := before.keyNodes + {id})
    ensures GroupsAre(root, ids + [id], groups[root[id] := group])
  {
    hide IsFileNode;
    var all, next := ids + [id], groups[root[id] := group];
    assert id in all && forall other | other in ids :: other in all;
    forall r | r in next
      ensures next[r] == GroupOf(root, all, r) && exists other | other in all :: root[other] == r
    {
      if r != root[id] {
        assert groups[r] == GroupOf(root, ids, r);
        var other :| other in ids && root[other] == r;
        assert other in all;
      }
    }
  }

  /** A family for one root: its files by name, and its keys. */
  ghost function FamilyOf(root: map<Id, Id>, r: Id): Family {
    Family(set id | id in root && root[id] == r && IsFileNode(id) :: id[5..],
           set id | id in root && root[id] == r && !IsFileNode(id))
  }

  function FamilyFrom(group: Group): Family {
    Family(set id | id in group.fileNodes && |id| >= 5 :: id[5..], group.keyNodes)
  }

  /** The families of a union-find: one for each root that has a file, and no root twice. */
  ghost predicate FamiliesAre(root: map<Id, Id>, families: seq<Family>, owners: seq<Id>, left: set<Id>) {
    && |owners| == |families|
    && (forall i | 0 <= i < |families| ::
          families[i] == FamilyOf(root, owners[i]) && families[i].files != {} && owners[i] !in left)
    && (forall i, j | 0 <= i < j < |families| :: owners[i] != owners[j])
    && (forall id | id in root && IsFileNode(id) && root[id] !in left :: root[id] in owners)
  }

  method ListFamilies(ghost root: map<Id, Id>, ghost ids: seq<Id>, groups: map<Id, Group>)
      returns (families: seq<Family>, ghost owners: seq<Id>)
    requires (set id | id in ids) == root.Keys
    requires forall id | id in ids :: id in root
    requires GroupsAre(root, ids, groups)
    ensures FamiliesAre(root, families, owners, {})
  {
    families, owners := [], [];
    var left := groups.Keys;
    while left != {}
      invariant left <= groups.Keys
      invariant FamiliesAre(root, families, owners, left)
      decreases |left|
    {
      var r :| r in left;
      FamilyIsGroup(root, ids, r);
      var family := FamilyFrom(groups[r]);
      AnotherFamily(root, families, owners, left, r, family);
      if groups[r].fileNodes != {} {
        families := families + [family];
        owners := owners + [r];
      }
      left := left - {r};
    }
  }

  lemma FamilyIsGroup(root: map<Id, Id>, ids: seq<Id>, r: Id)
    requires (set id | id in ids) == root.Keys
    requires forall id | id in ids :: id in root
    ensures FamilyFrom(GroupOf(root, ids, r)) == FamilyOf(root, r)
    ensures (FamilyOf(root, r).files == {}) == (GroupOf(root, ids, r).fileNodes == {})
  {
    assert forall id :: id in ids <==> id in root.Keys;
    var group := GroupOf(root, ids, r);
    forall file | file in FamilyOf(root, r).files
      ensures file in FamilyFrom(group).files
    {
      var id :| id in root && root[id] == r && IsFileNode(id) && file == id[5..];
      assert id in group.fileNodes;
    }
    if id :| id in group.fileNodes {
      assert id[5..] in FamilyOf(root, r).files;
    }
  }

  lemma AnotherFamily(root: map<Id, Id>, families: seq<Family>, owners: seq<Id>, left: set<Id>, r: Id, family: Family)
    requires FamiliesAre(root, families, owners, left) && r in left && family == FamilyOf(root, r)
    ensures if family.files != {} then FamiliesAre(root, families + [family], owners + [r], left - {r})
            else FamiliesAre(root, families, owners, left - {r})
  {
    hide FamilyOf;
    forall id | id in root && IsFileNode(id) && root[id] == r
      ensures family.files != {}
    {
      HasMember(root, id);
    }
  }

  lemma HasMember(root: map<Id, Id>, id: Id)
    requires id in root && IsFileNode(id)
    ensures id[5..] in FamilyOf(root, root[id]).files
  {
  }

  /**
   The families partition the files, two files share a family exactly when a chain of shared keys
   links them, and a family's keys are exactly those of its files.
   */
  ghost predicate PartitionFiles(surfaces: seq<Surface>, families: seq<Family>) {
    && (forall family | family in families :: family.files != {})
    && (forall i, f | 0 <= i < |families| && f in families[i].files :: IsFile(surfaces, f))
    && (forall f | IsFile(surfaces, f) :: exists family :: family in families && f in family.files)
    && (forall i, j, f, g | 0 <= i < |families| && 0 <= j < |families| &&
                            f in families[i].files && g in families[j].files ::
          i == j <==> SameFamily(surfaces, f, g))
    && (forall i, key | 0 <= i < |families| ::
          key in families[i].keys <==> exists f :: f in families[i].files && HasKey(surfaces, f, key))
  }

  // ---- The same, by the helpers themselves ----

  /** The key stands for a local helper cluster or an imported helper module of the surface. */
  predicate KeyOf(surface: Surface, key: Id) {
    || (exists name | name in surface.localHelperClusterKeys :: key == "key:local:" + name)
    || (exists name | name in surface.importedHelperModules :: key == "key:module:" + name)
  }

  /** Two files name the same local helper cluster, or import the same helper module. */
  predicate ShareHelper(surfaces: seq<Surface>, f: string, g: string) {
    exists s, t | s in surfaces && t in surfaces :: s.file == f && t.file == g
      && ((exists name :: name in s.localHelperClusterKeys && name in t.localHelperClusterKeys)
          || (exists name :: name in s.importedHelperModules && name in t.importedHelperModules))
  }

  ghost predicate HelperChain(surfaces: seq<Surface>, chain: seq<string>, f: string, g: string) {
    && |chain| > 0 && chain[0] == f && chain[|chain| - 1] == g
    && forall k {:trigger chain[k]} :: 0 <= k < |chain| - 1 ==> ShareHelper(surfaces, chain[k], chain[k + 1])
  }

  /** A chain of shared helpers leads from one file to the other. */
  ghost predicate Related(surfaces: seq<Surface>, f: string, g: string) {
    exists chain :: HelperChain(surfaces, chain, f, g)
  }

  lemma PrefixedMeans(prefix: string, names: seq<string>, key: Id)
    ensures key in Prefixed(prefix, names) <==> exists name :: name in names && key == prefix + name
  {
    var keys := Prefixed(prefix, names);
    if name :| name in names && key == prefix + name {
      var i :| 0 <= i < |names| && names[i] == name;
      assert keys[i] == key;
    }
  }

  lemma KeyOfMeans(surface: Surface, key: Id)
    ensures key in SurfaceKeys(surface) <==> KeyOf(surface, key)
  {
    PrefixedMeans("key:local:", surface.localHelperClusterKeys, key);
    PrefixedMeans("key:module:", surface.importedHelperModules, key);
    hide Prefixed;
  }

  lemma Unprefix(prefix: string, a: string, b: string)
    ensures prefix + a == prefix + b ==> a == b
  {
    assert (prefix + a)[|prefix|..] == a && (prefix + b)[|prefix|..] == b;
  }

  /** A key of two surfaces is a helper they share: the two kinds of keys never meet. */
  lemma SharedKeyIsHelper(s: Surface, t: Surface)
    ensures (exists key :: KeyOf(s, key) && KeyOf(t, key)) <==> Meet(s, t)
  {
    if key :| KeyOf(s, key) && KeyOf(t, key) {
      assert forall name: string :: ("key:local:" + name)[4] == 'l' && ("key:module:" + name)[4] == 'm';
      forall a: string, b: string
        ensures "key:local:" + a == "key:local:" + b ==> a == b
        ensures "key:module:" + a == "key:module:" + b ==> a == b
      {
        Unprefix("key:local:", a, b);
        Unprefix("key:module:", a, b);
      }
    }
    if name :| name in s.localHelperClusterKeys && name in t.localHelperClusterKeys {
      assert KeyOf(s, "key:local:" + name) && KeyOf(t, "key:local:" + name);
    }
    if name :| name in s.importedHelperModules && name in t.importedHelperModules {
      assert KeyOf(s, "key:module:" + name) && KeyOf(t, "key:module:" + name);
    }
  }

  lemma HasKeyMeans(surfaces: seq<Surface>, f: string, key: Id)
    ensures HasKey(surfaces, f, key) <==> exists s :: s in surfaces && s.file == f && KeyOf(s, key)
  {
    hide SurfaceKeys, KeyOf;
    forall s ensures key in SurfaceKeys(s) <==> KeyOf(s, key) {
      KeyOfMeans(s, key);
    }
  }

  /** Two surfaces share a helper. */
  predicate Meet(s: Surface, t: Surface) {
    || (exists name :: name in s.localHelperClusterKeys && name in t.localHelperClusterKeys)
    || (exists name :: name in s.importedHelperModules && name in t.importedHelperModules)
  }

  lemma ShareKeyMeans(surfaces: seq<Surface>, f: string, g: string)
    ensures ShareKey(surfaces, f, g) <==> ShareHelper(surfaces, f, g)
  {
    hide KeyOf, HasKey, Meet;
    ShareHelperMeets(surfaces, f, g);
    if ShareKey(surfaces, f, g) {
      var key :| HasKey(surfaces, f, key) && HasKey(surfaces, g, key);
      HasKeyMeans(surfaces, f, key);
      HasKeyMeans(surfaces, g, key);
      var s :| s in surfaces && s.file == f && KeyOf(s, key);
      var t :| t in surfaces && t.file == g && KeyOf(t, key);
      SharedKeyIsHelper(s, t);
    }
    if s, t :| s in surfaces && t in surfaces && s.file == f && t.file == g && Meet(s, t) {
      SharedKeyIsHelper(s, t);
      var key :| KeyOf(s, key) && KeyOf(t, key);
      HasKeyMeans(surfaces, f, key);
      HasKeyMeans(surfaces, g, key);
    }
    hide ShareHelper;
  }

  lemma ShareHelperMeets(surfaces: seq<Surface>, f: string, g: string)
    ensures ShareHelper(surfaces, f, g)
       <==> exists s, t :: s in surfaces && t in surfaces && s.file == f && t.file == g && Meet(s, t)
  {
  }

  lemma SameFamilyMeans(surfaces: seq<Surface>, f: string, g: string)
    ensures SameFamily(surfaces, f, g) <==> Related(surfaces, f, g)
  {
    hide ShareKey, ShareHelper;
    forall a, b ensures ShareKey(surfaces, a, b) <==> ShareHelper(surfaces, a, b) {
      ShareKeyMeans(surfaces, a, b);
    }
    forall chain ensures FileChain(surfaces, chain, f, g) <==> HelperChain(surfaces, chain, f, g) {
    }
    hide FileChain, HelperChain;
  }

  ghost predicate FilesCovered(surfaces: seq<Surface>, families: seq<Family>) {
    && (forall surface | surface in surfaces :: exists family | family in families :: surface.file in family.files)
    && (forall family, f | family in families && f in family.files :: IsFile(surfaces, f))
    && (forall family | family in families :: family.files != {})
  }

  /** The keys of a family are those of the helpers of its files. */
  ghost predicate KeysOfFiles(surfaces: seq<Surface>, family: Family) {
    forall key :: key in family.keys <==>
                    exists surface :: surface in surfaces && surface.file in family.files && KeyOf(surface, key)
  }

  ghost predicate Separated(surfaces: seq<Surface>, families: seq<Family>, i: nat, j: nat)
    requires i < |families| && j < |families|
  {
    forall f, g | f in families[i].files && g in families[j].files :: i == j <==> Related(surfaces, f, g)
  }

  /** Families by the helpers: files are together exactly when related, each with the keys of its files' helpers. */
  ghost predicate GroupsByHelpers(surfaces: seq<Surface>, families: seq<Family>) {
    && FilesCovered(surfaces, families)
    && (forall i, j | 0 <= i < |families| && 0 <= j < |families| :: Separated(surfaces, families, i, j))
    && (forall i | 0 <= i < |families| :: KeysOfFiles(surfaces, families[i]))
  }

  lemma FamilyKeysAreHelpers(surfaces: seq<Surface>, families: seq<Family>, i: nat, key: Id)
    requires PartitionFiles(surfaces, families) && i < |families|
    ensures key in families[i].keys
       <==> exists surface :: surface in surfaces && surface.file in families[i].files && KeyOf(surface, key)
  {
    hide SameFamily, SurfaceKeys, KeyOf, IsFile;
    forall surface ensures key in SurfaceKeys(surface) <==> KeyOf(surface, key) {
      KeyOfMeans(surface, key);
    }
    if key in families[i].keys {
      var f :| f in families[i].files && HasKey(surfaces, f, key);
      var surface :| surface in surfaces && surface.file == f && key in SurfaceKeys(surface);
    }
    if surface :| surface in surfaces && surface.file in families[i].files && KeyOf(surface, key) {
      assert HasKey(surfaces, surface.file, key);
    }
  }

  lemma FamiliesHoldFiles(surfaces: seq<Surface>, families: seq<Family>)
    requires PartitionFiles(surfaces, families)
    ensures FilesCovered(surfaces, families)
  {
    hide SameFamily, HasKey;
    forall surface | surface in surfaces
      ensures exists family | family in families :: surface.file in family.files
    {
      assert IsFile(surfaces, surface.file);
    }
    forall family, f | family in families && f in family.files ensures IsFile(surfaces, f) {
      var i :| 0 <= i < |families| && families[i] == family;
      assert f in families[i].files;
    }
  }

  lemma FamiliesSeparated(surfaces: seq<Surface>, families: seq<Family>, i: nat, j: nat)
    requires PartitionFiles(surfaces, families) && i < |families| && j < |families|
    ensures Separated(surfaces, families, i, j)
  {
    hide SameFamily, Related, HasKey, IsFile;
    forall f, g | f in families[i].files && g in families[j].files
      ensures i == j <==> Related(surfaces, f, g)
    {
      SameFamilyMeans(surfaces, f, g);
    }
  }

  lemma PartitionIsByHelpers(surfaces: seq<Surface>, families: seq<Family>)
    requires PartitionFiles(surfaces, families)
    ensures GroupsByHelpers(surfaces, families)
  {
    FamiliesHoldFiles(surfaces, families);
    hide PartitionFiles, FilesCovered, Separated, KeyOf;
    forall i, j | 0 <= i < |families| && 0 <= j < |families| ensures Separated(surfaces, families, i, j) {
      FamiliesSeparated(surfaces, families, i, j);
    }
    forall i | 0 <= i < |families| ensures KeysOfFiles(surfaces, families[i]) {
      forall key
        ensures key in families[i].keys
           <==> exists surface :: surface in surfaces && surface.file in families[i].files && KeyOf(surface, key)
      {
        FamilyKeysAreHelpers(surfaces, families, i, key);
      }
    }
  }

  method GroupIntoFamilies(surfaces: seq<Surface>) returns (families: seq<Family>)
    ensures PartitionFiles(surfaces, families) && GroupsByHelpers(surfaces, families)
  {
    hide Rooted, Faithful, GroupsAre, FamiliesAre, PartitionFiles, LinksOf, NodesOf, GroupsByHelpers;
    var uf := BuildUnionFind(surfaces);
    SameKeys(uf.parent, uf.root, uf.depth);
    var groups, ids := GroupIds(uf);
    assert forall id | id in ids :: id in uf.root by {
      assert forall id | id in ids :: id in (set other | other in ids);
    }
    ghost var owners;
    families, owners := ListFamilies(uf.root, ids, groups);
    FamiliesPartition(surfaces, uf.root, families, owners);
    PartitionIsByHelpers(surfaces, families);
  }

  lemma FileMember(root: map<Id, Id>, r: Id, f: string)
    ensures f in FamilyOf(root, r).files <==> FileNode(f) in root && root[FileNode(f)] == r
  {
    if f in FamilyOf(root, r).files {
      var id :| id in root && root[id] == r && IsFileNode(id) && f == id[5..];
      assert id == id[..5] + id[5..] == FileNode(f);
    }
  }

  lemma FilesAreNodes(surfaces: seq<Surface>, f: string)
    ensures FileNode(f) in NodesOf(surfaces) <==> IsFile(surfaces, f)
  {
    hide SurfaceKeys, FileNode;
    if FileNode(f) in NodesOf(surfaces) {
      var surface :| surface in surfaces && FileNode(surface.file) == FileNode(f);
      assert FileNode(surface.file)[5..] == FileNode(f)[5..];
    }
  }

  lemma KeysAreNodes(surfaces: seq<Surface>, key: Id)
    requires !IsFileNode(key)
    ensures key in NodesOf(surfaces) <==> exists f :: HasKey(surfaces, f, key)
  {
    hide SurfaceKeys, FileNode, IsFileNode;
    if key in NodesOf(surfaces) {
      var surface :| surface in surfaces && key in SurfaceKeys(surface);
      assert HasKey(surfaces, surface.file, key);
    }
    if f :| HasKey(surfaces, f, key) {
      var surface :| surface in surfaces && surface.file == f && key in SurfaceKeys(surface);
    }
  }

  lemma KeyShareRoot(surfaces: seq<Surface>, root: map<Id, Id>, f: string, key: Id)
    requires Faithful(root, LinksOf(surfaces)) && HasKey(surfaces, f, key)
    ensures FileNode(f) in root && key in root && !IsFileNode(key) && root[FileNode(f)] == root[key]
  {
    hide SurfaceKeys, FileNode, LinksOf;
    KeyMeansLink(surfaces, f, key);
    LinkMeansKey(surfaces, FileNode(f), key);
    LinkConnects(LinksOf(surfaces), FileNode(f), key);
  }

  lemma FamilyKeys(surfaces: seq<Surface>, root: map<Id, Id>, r: Id, key: Id)
    requires Faithful(root, LinksOf(surfaces)) && root.Keys == NodesOf(surfaces)
    ensures key in FamilyOf(root, r).keys <==> exists f :: f in FamilyOf(root, r).files && HasKey(surfaces, f, key)
  {
    hide Faithful, HasKey, FileNode, LinksOf, NodesOf, IsFileNode;
    if key in FamilyOf(root, r).keys {
      KeysAreNodes(surfaces, key);
      var f :| HasKey(surfaces, f, key);
      KeyShareRoot(surfaces, root, f, key);
      FileMember(root, r, f);
    }
    if f :| f in FamilyOf(root, r).files && HasKey(surfaces, f, key) {
      KeyShareRoot(surfaces, root, f, key);
      FileMember(root, r, f);
    }
  }

  lemma FilesOfFamilies(surfaces: seq<Surface>, root: map<Id, Id>, r: Id, q: Id, f: string, g: string)
    requires Faithful(root, LinksOf(surfaces)) && f in FamilyOf(root, r).files && g in FamilyOf(root, q).files
    ensures r == q <==> SameFamily(surfaces, f, g)
  {
    hide FileNode, LinksOf, SameFamily, FamilyOf;
    FileMember(root, r, f);
    FileMember(root, q, g);
    ConnectedFilesAreFamily(surfaces, f, g);
  }

  lemma FamiliesPartition(surfaces: seq<Surface>, root: map<Id, Id>, families: seq<Family>, owners: seq<Id>)
    requires Faithful(root, LinksOf(surfaces)) && root.Keys == NodesOf(surfaces)
    requires FamiliesAre(root, families, owners, {})
    ensures PartitionFiles(surfaces, families)
  {
    hide Faithful, HasKey, FileNode, LinksOf, NodesOf, IsFile, SameFamily, FamilyOf;
    forall i, f | 0 <= i < |families| && f in families[i].files
      ensures IsFile(surfaces, f)
    {
      FileMember(root, owners[i], f);
      FilesAreNodes(surfaces, f);
    }
    forall f | IsFile(surfaces, f)
      ensures exists family :: family in families && f in family.files
    {
      FilesAreNodes(surfaces, f);
      var i :| 0 <= i < |owners| && owners[i] == root[FileNode(f)];
      FileMember(root, owners[i], f);
      assert families[i] in families;
    }
    forall i, j, f, g | 0 <= i < |families| && 0 <= j < |families| && f in families[i].files && g in families[j].files
      ensures i == j <==> SameFamily(surfaces, f, g)
    {
      FilesOfFamilies(surfaces, root, owners[i], owners[j], f, g);
    }
    forall i, key | 0 <= i < |families|
      ensures key in families[i].keys <==> exists f :: f in families[i].files && HasKey(surfaces, f, key)
    {
      FamilyKeys(surfaces, root, owners[i], key);
    }
  }
}
