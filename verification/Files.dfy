/** The inode tree of fisopfs/fisopfs.c as a value, and its path operations.

    A path is the list of names between the slashes of a normalised absolute path; the empty
    list is the root. `id` stands for the address of the inode. */
module Files {
  import opened Base

  const ENOENT := -2
  const EEXIST := -17
  const EISDIR := -21
  const ENOTEMPTY := -39

  // Mode, owner, times and link count.
  datatype Meta = Meta(modo: nat, uid: nat, gid: nat, acceso: nat, modificacion: nat, cambio: nat, enlaces: nat)

  datatype Node = Node(id: nat, name: string, meta: Meta, dir: bool, data: seq<nat>, kids: seq<Node>)

  type Path = seq<string>

  const MAX_FILENAME_LENGTH := 64

  // What strtok finds between slashes, with a last name that fits the buffer of buscar_padre
  // and that crear_inode accepts.  From 64 characters on strcpy leaves its buffer; names in
  // the tree never get there, so only calls that copy a name before finding it need this.
  ghost predicate Proper(path: Path) {
    && (forall i :: 0 <= i < |path| ==> path[i] != [] && '/' !in path[i])
    && (path != [] ==> |path[|path| - 1]| < MAX_FILENAME_LENGTH)
  }

  // ---------------------------------------------------------------- trees

  // The first child of that name, or the number of children.
  function Index(kids: seq<Node>, name: string): (i: nat)
    ensures i <= |kids| && (i < |kids| ==> kids[i].name == name)
    ensures forall j :: 0 <= j < i ==> kids[j].name != name
    decreases |kids|
  {
    if kids == [] || kids[0].name == name then 0 else 1 + Index(kids[1..], name)
  }

  ghost predicate TreeOk(v: Node)
    decreases v
  {
    && (!v.dir ==> v.kids == []) && (v.dir ==> v.data == [])
    && Siblings(v.kids) && (forall i :: 0 <= i < |v.kids| ==> |v.kids[i].name| < MAX_FILENAME_LENGTH)
    && forall i :: 0 <= i < |v.kids| ==> TreeOk(v.kids[i])
  }

  ghost predicate Siblings(kids: seq<Node>) {
    forall i, j :: 0 <= i < j < |kids| ==> kids[i].name != kids[j].name
  }

  function Find(v: Node, path: Path): Option<Node>
    decreases |path|
  {
    if path == [] then Some(v)
    else if !v.dir then None
    else
      var i := Index(v.kids, path[0]);
      if i == |v.kids| then None else Find(v.kids[i], path[1..])
  }

  // buscar_inode: it also stops at a file, with names still to go.
  function Buscar(v: Node, path: Path): Option<Node>
    decreases |path|
  {
    if path == [] || !v.dir then Some(v)
    else
      var i := Index(v.kids, path[0]);
      if i == |v.kids| then None else Buscar(v.kids[i], path[1..])
  }

  // How far buscar_inode gets on the path.
  function Stop(v: Node, path: Path): (p: Path)
    ensures p <= path
    decreases |path|
  {
    if path == [] || !v.dir then []
    else
      var i := Index(v.kids, path[0]);
      if i == |v.kids| then path else [path[0]] + Stop(v.kids[i], path[1..])
  }

  // A file lies on the way.
  ghost predicate PassesFile(v: Node, path: Path) {
    exists i :: 0 <= i < |path| && IsFile(Find(v, path[..i]))
  }

  predicate IsFile(n: Option<Node>) { n.Some? && !n.value.dir }

  predicate IsDir(n: Option<Node>) { n.Some? && n.value.dir }

  /** buscar_inode finds the node that the path names exactly when no file lies on the way; else
      it returns that file although the path names nothing. */
  lemma {:induction false} BuscarExact(v: Node, path: Path)
    ensures Buscar(v, path) == Find(v, Stop(v, path))
    ensures Buscar(v, path) == Find(v, path) <==> !PassesFile(v, path)
    ensures PassesFile(v, path) ==> Find(v, path).None? && IsFile(Buscar(v, path)) && |Stop(v, path)| < |path|
    ensures !PassesFile(v, path) ==> Stop(v, path) == path
    decreases |path|
  {
    if path == [] {
    } else if !v.dir {
      assert IsFile(Find(v, path[..0]));
    } else {
      var i := Index(v.kids, path[0]);
      if i < |v.kids| {
        BuscarExact(v.kids[i], path[1..]);
        forall j | 0 <= j < |path| - 1 ensures Find(v, path[..j + 1]) == Find(v.kids[i], path[1..][..j]) {
          assert path[..j + 1][1..] == path[1..][..j];
        }
        assert PassesFile(v, path) <==> PassesFile(v.kids[i], path[1..]) by {
          if PassesFile(v, path) {
            var j :| 0 <= j < |path| && IsFile(Find(v, path[..j]));
            assert j > 0 && IsFile(Find(v.kids[i], path[1..][..j - 1]));
          }
          if PassesFile(v.kids[i], path[1..]) {
            var j :| 0 <= j < |path[1..]| && IsFile(Find(v.kids[i], path[1..][..j]));
            assert IsFile(Find(v, path[..j + 1]));
          }
        }
        assert ([path[0]] + Stop(v.kids[i], path[1..]))[1..] == Stop(v.kids[i], path[1..]);
      } else {
        forall j | 0 <= j < |path| ensures !IsFile(Find(v, path[..j])) {
        }
      }
    }
  }

  // ---------------------------------------------------------------- replacing one node

  function Set(v: Node, path: Path, n: Node): Node
    decreases |path|
  {
    if path == [] then n
    else
      var i := Index(v.kids, path[0]);
      if i == |v.kids| then v else v.(kids := v.kids[i := Set(v.kids[i], path[1..], n)])
  }

  // What remains of q below p.
  function Below(p: Path, q: Path): Path
    requires p <= q
  {
    q[|p|..]
  }

  /** Replacing the node at p changes what lies at p and below it, the lists of the directories
      above p, and nothing else. */
  lemma {:induction false} FindSet(v: Node, p: Path, n: Node, q: Path)
    requires Find(v, p).Some? && n.name == Find(v, p).value.name
    ensures p <= q ==> Find(Set(v, p, n), q) == Find(n, Below(p, q))
    ensures q <= p ==> Find(v, q).Some? && Find(Set(v, p, n), q) == Some(Set(Find(v, q).value, Below(q, p), n))
    ensures !(p <= q) && !(q <= p) ==> Find(Set(v, p, n), q) == Find(v, q)
    decreases |p|
  {
    if p == [] || q == [] {
    } else {
      var i := Index(v.kids, p[0]);
      var w := Set(v, p, n);
      SetName(v.kids[i], p[1..], n);
      SameIndex(v.kids, i, w.kids[i], q[0]);
      if q[0] == p[0] {
        FindSet(v.kids[i], p[1..], n, q[1..]);
        assert p <= q <==> p[1..] <= q[1..];
        assert q <= p <==> q[1..] <= p[1..];
      }
    }
  }

  lemma SetName(v: Node, p: Path, n: Node)
    requires Find(v, p).Some? && n.name == Find(v, p).value.name
    ensures Set(v, p, n).name == v.name && (p != [] ==> Set(v, p, n).dir == v.dir)
  {
  }

  lemma {:induction false} SameIndex(kids: seq<Node>, i: nat, k: Node, name: string)
    requires i < |kids| && k.name == kids[i].name
    ensures Index(kids[i := k], name) == Index(kids, name)
    decreases |kids|
  {
    if kids[0].name != name && i > 0 {
      assert kids[i := k][1..] == kids[1..][i - 1 := k];
      SameIndex(kids[1..], i - 1, k, name);
    } else if kids[0].name != name {
      assert kids[i := k][1..] == kids[1..];
    }
  }

  lemma {:induction false} SetTreeOk(v: Node, p: Path, n: Node)
    requires TreeOk(v) && TreeOk(n) && Find(v, p).Some? && n.name == Find(v, p).value.name
    ensures TreeOk(Set(v, p, n))
    decreases |p|
  {
    if p != [] {
      var i := Index(v.kids, p[0]);
      SetTreeOk(v.kids[i], p[1..], n);
      SetName(v.kids[i], p[1..], n);
    }
  }

  lemma {:induction false} FindTreeOk(v: Node, p: Path)
    requires TreeOk(v) && Find(v, p).Some?
    ensures TreeOk(Find(v, p).value)
    decreases |p|
  {
    if p != [] {
      FindTreeOk(v.kids[Index(v.kids, p[0])], p[1..]);
    }
  }

  // ---------------------------------------------------------------- create, mkdir, unlink, rmdir

  function Parent(path: Path): Path
    requires path != []
  {
    path[..|path| - 1]
  }

  function Last(path: Path): string
    requires path != []
  {
    path[|path| - 1]
  }

  // buscar_padre
  function BuscarPadre(v: Node, path: Path): Option<Node> {
    if path == [] then None else Buscar(v, Parent(path))
  }

  function Touch(v: Node, now: nat): Node { v.(meta := v.meta.(modificacion := now)) }

  // mkdir and create, with the inode that crear_inode made.
  function Insert(v: Node, path: Path, child: Node, now: nat): (Node, int) {
    var padre := BuscarPadre(v, path);
    if padre.None? || !padre.value.dir then (v, ENOENT)
    else if Buscar(v, path).Some? then (v, EEXIST)
    else (Set(v, Parent(path), Touch(padre.value.(kids := padre.value.kids + [child]), now)), 0)
  }

  function RemoveAt<T>(s: seq<T>, i: nat): seq<T>
    requires i < |s|
  {
    s[..i] + s[i + 1..]
  }

  lemma Remaining<T>(s: seq<T>, i: nat, j: nat)
    requires i < |s| && j < |s| - 1
    ensures RemoveAt(s, i)[j] == s[if j < i then j else j + 1]
  {
  }

  // eliminar_inode, for the node that buscar_inode found at path.
  function Eliminar(v: Node, path: Path, now: nat): Node {
    var padre := BuscarPadre(v, path);
    if padre.None? || !padre.value.dir then v
    else
      var i := Index(padre.value.kids, Last(path));
      if i == |padre.value.kids| then v
      else Set(v, Parent(path), Touch(padre.value.(kids := RemoveAt(padre.value.kids, i)), now))
  }

  function Unlink(v: Node, path: Path, now: nat): (Node, int) {
    var node := Buscar(v, path);
    if node.None? || node.value.dir then (v, EISDIR) else (Eliminar(v, path, now), 0)
  }

  function Rmdir(v: Node, path: Path, now: nat): (Node, int) {
    var node := Buscar(v, path);
    if node.None? || !node.value.dir || node.value.kids != [] then (v, ENOTEMPTY) else (Eliminar(v, path, now), 0)
  }

  // What a lookup shows of a node: everything but its times and its list.
  datatype Entry = Entry(id: nat, name: string, dir: bool, data: seq<nat>)

  function Shown(n: Option<Node>): Option<Entry> {
    if n.None? then None else Some(Entry(n.value.id, n.value.name, n.value.dir, n.value.data))
  }

  lemma {:induction false} IndexAppend(kids: seq<Node>, child: Node, name: string)
    ensures Index(kids + [child], name) ==
              if Index(kids, name) < |kids| then Index(kids, name)
              else if child.name == name then |kids| else |kids| + 1
    decreases |kids|
  {
    if kids == [] {
      assert (kids + [child])[1..] == [];
    } else if kids[0].name != name {
      assert (kids + [child])[1..] == kids[1..] + [child];
      IndexAppend(kids[1..], child, name);
    }
  }

  lemma RemoveTail(kids: seq<Node>, i: nat)
    requires 0 < i < |kids|
    ensures RemoveAt(kids, i)[0] == kids[0] && RemoveAt(kids, i)[1..] == RemoveAt(kids[1..], i - 1)
  {
  }

  lemma {:induction false} IndexRemove(kids: seq<Node>, i: nat, name: string)
    requires i < |kids| && Siblings(kids)
    ensures var j := Index(kids, name);
            Index(RemoveAt(kids, i), name) == if j < i then j else if j == i then |kids| - 1 else j - 1
    decreases |kids|
  {
    if i == 0 {
      assert RemoveAt(kids, 0) == kids[1..];
      if kids[0].name == name {
        NotThere(kids[1..], name);
      }
    } else {
      RemoveTail(kids, i);
      if kids[0].name != name {
        IndexRemove(kids[1..], i - 1, name);
      }
    }
  }

  lemma {:induction false} NotThere(kids: seq<Node>, name: string)
    requires forall j :: 0 <= j < |kids| ==> kids[j].name != name
    ensures Index(kids, name) == |kids|
    decreases |kids|
  {
    if kids != [] {
      NotThere(kids[1..], name);
    }
  }

  // A node replaced by one that shows the same, seen from any path that does not go through it.
  lemma ShownOutside(v: Node, p: Path, n: Node, q: Path)
    requires Find(v, p).Some? && Shown(Some(n)) == Shown(Find(v, p))
    requires p <= q ==> Shown(Find(n, Below(p, q))) == Shown(Find(Find(v, p).value, Below(p, q)))
    ensures Shown(Find(Set(v, p, n), q)) == Shown(Find(v, q))
  {
    FindSet(v, p, n, q);
    if p <= q {
      FindBelow(v, p, q);
    }
  }

  lemma {:induction false} FindBelow(v: Node, p: Path, q: Path)
    requires Find(v, p).Some? && p <= q
    ensures Find(v, q) == Find(Find(v, p).value, Below(p, q))
    decreases |p|
  {
    if p != [] {
      FindBelow(v.kids[Index(v.kids, p[0])], p[1..], q[1..]);
      assert Below(p[1..], q[1..]) == Below(p, q);
    }
  }

  // The directory p with one more child, seen from q.
  lemma AddedBelow(d: Node, child: Node, now: nat, r: Path)
    requires d.dir && child.kids == [] && Index(d.kids, child.name) == |d.kids|
    ensures var n := Touch(d.(kids := d.kids + [child]), now);
            Shown(Find(n, r)) == if r == [child.name] then Shown(Some(child)) else Shown(Find(d, r))
  {
    if r != [] {
      IndexAppend(d.kids, child, r[0]);
      if r[0] == child.name {
        NotThere([], if |r| > 1 then r[1] else "");
        assert r[1..] == [] ==> r == [child.name];
      }
    }
  }

  lemma RemovedBelow(d: Node, i: nat, now: nat, r: Path)
    requires d.dir && i < |d.kids| && Siblings(d.kids) && d.kids[i].kids == []
    ensures var n := Touch(d.(kids := RemoveAt(d.kids, i)), now);
            Shown(Find(n, r)) == if r == [d.kids[i].name] then None else Shown(Find(d, r))
  {
    if r != [] {
      if r[0] == d.kids[i].name {
        RemovedThere(d, i, now, r);
      } else {
        RemovedElsewhere(d, i, now, r);
      }
    }
  }

  lemma RemovedThere(d: Node, i: nat, now: nat, r: Path)
    requires d.dir && i < |d.kids| && Siblings(d.kids) && d.kids[i].kids == [] && r != [] && r[0] == d.kids[i].name
    ensures Find(Touch(d.(kids := RemoveAt(d.kids, i)), now), r) == None
    ensures r == [d.kids[i].name] || Find(d, r) == None
  {
    IndexRemove(d.kids, i, r[0]);
    SameName(d.kids, i);
    if |r| > 1 {
      NotThere([], r[1]);
      assert Find(d.kids[i], r[1..]) == None;
    } else {
      assert r == [r[0]];
    }
  }

  lemma RemovedElsewhere(d: Node, i: nat, now: nat, r: Path)
    requires d.dir && i < |d.kids| && Siblings(d.kids) && r != [] && r[0] != d.kids[i].name
    ensures Find(Touch(d.(kids := RemoveAt(d.kids, i)), now), r) == Find(d, r)
  {
    IndexRemove(d.kids, i, r[0]);
    var j := Index(d.kids, r[0]);
    if j < |d.kids| {
      Remaining(d.kids, i, if j < i then j else j - 1);
    }
  }

  lemma SameName(kids: seq<Node>, i: nat)
    requires i < |kids| && Siblings(kids)
    ensures Index(kids, kids[i].name) == i
  {
  }

  lemma ParentBelow(path: Path, q: Path)
    requires path != [] && Parent(path) <= q
    ensures Below(Parent(path), q) == [Last(path)] <==> q == path
  {
  }

  /** create and mkdir: what is refused and why; a success adds exactly one binding, and every
      other path shows what it showed before. */
  lemma InsertAddsOne(v: Node, path: Path, child: Node, now: nat, w: Node, r: int, q: Path)
    requires TreeOk(v) && Proper(path) && child.kids == [] && (path != [] ==> child.name == Last(path))
    requires (w, r) == Insert(v, path, child, now)
    ensures r == ENOENT <==> path == [] || !IsDir(Find(v, Parent(path)))
    ensures r == EEXIST <==> path != [] && IsDir(Find(v, Parent(path))) && Find(v, path).Some?
    ensures r == 0 || (w == v && (r == ENOENT || r == EEXIST))
    ensures r == 0 ==> Shown(Find(w, q)) == if q == path then Shown(Some(child)) else Shown(Find(v, q))
  {
    if path != [] {
      var p := Parent(path);
      BuscarExact(v, p);
      if IsDir(Find(v, p)) {
        var d := Find(v, p).value;
        ParentDir(v, path);
        ChildOf(v, path);
        if r == 0 {
          if p <= q {
            AddedBelow(d, child, now, Below(p, q));
            FindSet(v, p, Touch(d.(kids := d.kids + [child]), now), q);
            FindBelow(v, p, q);
            ParentBelow(path, q);
          } else {
            ShownOutside(v, p, Touch(d.(kids := d.kids + [child]), now), q);
          }
        }
      }
    }
  }

  // With a directory as parent, no file lies on the way.
  lemma ParentDir(v: Node, path: Path)
    requires path != [] && IsDir(Find(v, Parent(path)))
    ensures Buscar(v, path) == Find(v, path) && Buscar(v, Parent(path)) == Find(v, Parent(path))
  {
    var p := Parent(path);
    BuscarExact(v, path);
    BuscarExact(v, p);
    assert forall i :: 0 <= i <= |p| ==> path[..i] == p[..i];
    assert p[..|p|] == p;
  }

  lemma ChildOf(v: Node, path: Path)
    requires path != [] && IsDir(Find(v, Parent(path)))
    ensures var d := Find(v, Parent(path)).value;
            var i := Index(d.kids, Last(path));
            Find(v, path) == if i < |d.kids| then Some(d.kids[i]) else None
  {
    FindBelow(v, Parent(path), path);
    assert Below(Parent(path), path) == [Last(path)];
  }

  lemma EliminarRemovesOne(v: Node, path: Path, now: nat, q: Path)
    requires TreeOk(v) && path != [] && IsDir(Find(v, Parent(path)))
    requires Find(v, path).Some? && Find(v, path).value.kids == []
    ensures Shown(Find(Eliminar(v, path, now), q)) == if q == path then None else Shown(Find(v, q))
  {
    var p := Parent(path);
    var d := Find(v, p).value;
    ParentDir(v, path);
    ChildOf(v, path);
    FindTreeOk(v, p);
    var i := Index(d.kids, Last(path));
    var n := Touch(d.(kids := RemoveAt(d.kids, i)), now);
    if p <= q {
      RemovedBelow(d, i, now, Below(p, q));
      FindSet(v, p, n, q);
      FindBelow(v, p, q);
      ParentBelow(path, q);
    } else {
      ShownOutside(v, p, n, q);
    }
  }

  lemma ParentOf(v: Node, path: Path)
    requires path != [] && Find(v, path).Some?
    ensures IsDir(Find(v, Parent(path)))
  {
    FindUp(v, Parent(path), path);
  }

  lemma {:induction false} FindUp(v: Node, p: Path, q: Path)
    requires p <= q && p != q && Find(v, q).Some?
    ensures IsDir(Find(v, p))
    decreases |p|
  {
    if p != [] {
      FindUp(v.kids[Index(v.kids, p[0])], p[1..], q[1..]);
    }
  }

  /** unlink: refused exactly when the lookup ends at nothing or at a directory; a success
      removes the binding of a file and no other. Below a file it reports success and removes
      nothing, as there is nothing. */
  lemma UnlinkRemovesOne(v: Node, path: Path, now: nat, w: Node, r: int, q: Path)
    requires TreeOk(v) && v.dir && (PassesFile(v, path) ==> Proper(path)) && (w, r) == Unlink(v, path, now)
    ensures r == 0 || (r == EISDIR && w == v)
    ensures r == 0 <==> IsFile(Find(v, path)) || PassesFile(v, path)
    ensures IsFile(Find(v, path)) ==> Shown(Find(w, q)) == if q == path then None else Shown(Find(v, q))
    ensures PassesFile(v, path) ==> w == v && Find(w, path).None?
  {
    BuscarExact(v, path);
    if IsFile(Find(v, path)) {
      FindTreeOk(v, path);
      ParentOf(v, path);
      EliminarRemovesOne(v, path, now, q);
    } else if PassesFile(v, path) {
      NoDirParent(v, path);
    }
  }

  lemma NoDirParent(v: Node, path: Path)
    requires PassesFile(v, path)
    ensures BuscarPadre(v, path).Some? && !BuscarPadre(v, path).value.dir
  {
    var p := Parent(path);
    BuscarExact(v, p);
    var i :| 0 <= i < |path| && IsFile(Find(v, path[..i]));
    assert path[..i] == p[..i];
    if i == |p| {
      assert p[..i] == p;
    }
  }

  /** rmdir: only an empty directory goes; the root stays although success is reported. */
  lemma RmdirRemovesOne(v: Node, path: Path, now: nat, w: Node, r: int, q: Path)
    requires TreeOk(v) && v.dir && (w, r) == Rmdir(v, path, now)
    ensures r == 0 || (r == ENOTEMPTY && w == v)
    ensures r == 0 <==> IsDir(Find(v, path)) && Find(v, path).value.kids == []
    ensures r == 0 && path == [] ==> w == v
    ensures r == 0 && path != [] ==> Shown(Find(w, q)) == if q == path then None else Shown(Find(v, q))
  {
    BuscarExact(v, path);
    if r == 0 && path != [] {
      ParentOf(v, path);
      EliminarRemovesOne(v, path, now, q);
    }
  }

  // ---------------------------------------------------------------- read, write, truncate

  function Overlay(base: seq<nat>, offset: nat, buf: seq<nat>): (s: seq<nat>)
    requires offset + |buf| <= |base|
    ensures |s| == |base|
    ensures forall k :: 0 <= k < |base| ==> s[k] == if offset <= k < offset + |buf| then buf[k - offset] else base[k]
  {
    base[..offset] + buf + base[offset + |buf|..]
  }

  // How many bytes realloc adds.
  function Extra(data: seq<nat>, size: nat, offset: nat): nat {
    if offset + size > |data| then offset + size - |data| else 0
  }

  // write; `junk` is what realloc leaves in the bytes it adds.
  function Write(v: Node, path: Path, buf: seq<nat>, offset: nat, junk: seq<nat>, now: nat): (Node, int)
    requires IsFile(Buscar(v, path)) ==> |junk| == Extra(Buscar(v, path).value.data, |buf|, offset)
  {
    var node := Buscar(v, path);
    if node.None? || node.value.dir then (v, EISDIR)
    else
      var n := node.value;
      var m := n.meta.(modificacion := now, cambio := now);
      (Set(v, Stop(v, path), n.(data := Overlay(n.data + junk, offset, buf), meta := m)), |buf|)
  }

  // The bytes that read returns, and its result.
  function Read(v: Node, path: Path, size: nat, offset: nat): (seq<nat>, int) {
    var node := Buscar(v, path);
    if node.None? || node.value.dir then ([], EISDIR)
    else if offset < |node.value.data| then
      var n := if offset + size > |node.value.data| then |node.value.data| - offset else size;
      (node.value.data[offset..offset + n], n)
    else ([], 0)
  }

  function Zeros(n: nat): (s: seq<nat>)
    ensures |s| == n && forall k :: 0 <= k < n ==> s[k] == 0
  {
    seq(n, _ => 0)
  }

  function Truncate(v: Node, path: Path, size: nat, now: nat): (Node, int) {
    var node := Buscar(v, path);
    if node.None? then (v, ENOENT)
    else if node.value.dir then (v, EISDIR)
    else
      var n := node.value;
      var data := if size <= |n.data| then n.data[..size] else n.data + Zeros(size - |n.data|);
      (Set(v, Stop(v, path), n.(data := data, meta := n.meta.(modificacion := now, cambio := now))), 0)
  }

  // The file that an operation on `path` reaches.
  lemma Reached(v: Node, path: Path, n: Node, q: Path)
    requires IsFile(Buscar(v, path)) && !n.dir && n.name == Buscar(v, path).value.name && n.id == Buscar(v, path).value.id
    requires n.kids == Buscar(v, path).value.kids
    ensures var w := Set(v, Stop(v, path), n);
            && Find(w, Stop(v, path)) == Some(n) && Buscar(w, path) == Some(n)
            && (q != Stop(v, path) ==> Shown(Find(w, q)) == Shown(Find(v, q)))
    decreases |path|
  {
    var p := Stop(v, path);
    var w := Set(v, p, n);
    BuscarExact(v, path);
    FindSet(v, p, n, p);
    if q != p {
      FindSet(v, p, n, q);
      if p <= q {
        FindBelow(v, p, q);
      }
    }
    StopAgain(v, path, n);
  }

  lemma {:induction false} StopAgain(v: Node, path: Path, n: Node)
    requires IsFile(Buscar(v, path)) && !n.dir && n.name == Buscar(v, path).value.name
    ensures Buscar(Set(v, Stop(v, path), n), path) == Some(n)
    decreases |path|
  {
    if path != [] && v.dir {
      var i := Index(v.kids, path[0]);
      var k := Set(v.kids[i], Stop(v.kids[i], path[1..]), n);
      BuscarExact(v.kids[i], path[1..]);
      SetName(v.kids[i], Stop(v.kids[i], path[1..]), n);
      SameIndex(v.kids, i, k, path[0]);
      StopAgain(v.kids[i], path[1..], n);
      assert Stop(v, path)[1..] == Stop(v.kids[i], path[1..]);
    }
  }

  /** write changes the bytes of one file: those of the buffer, and any gap before it, which
      keeps what realloc left there. All else shows what it showed. */
  lemma WriteChangesOne(v: Node, path: Path, buf: seq<nat>, offset: nat, junk: seq<nat>, now: nat, w: Node, r: int, q: Path)
    requires IsFile(Buscar(v, path)) ==> |junk| == Extra(Buscar(v, path).value.data, |buf|, offset)
    requires (w, r) == Write(v, path, buf, offset, junk, now)
    ensures r == EISDIR <==> !IsFile(Buscar(v, path))
    ensures r == EISDIR ==> w == v
    ensures r != EISDIR ==>
              && r == |buf| && (q != Stop(v, path) ==> Shown(Find(w, q)) == Shown(Find(v, q)))
              && IsFile(Find(v, Stop(v, path))) && IsFile(Find(w, Stop(v, path)))
              && var before, after := Find(v, Stop(v, path)).value.data, Find(w, Stop(v, path)).value.data;
              && |after| == |before| + Extra(before, |buf|, offset)
              && (forall k :: 0 <= k < |after| && offset <= k < offset + |buf| ==> after[k] == buf[k - offset])
              && (forall k :: 0 <= k < |before| && !(offset <= k < offset + |buf|) ==> after[k] == before[k])
              && (forall k :: |before| <= k < offset && k - |before| < |junk| ==> after[k] == junk[k - |before|])
    ensures r != EISDIR && buf != [] ==> Read(w, path, |buf|, offset) == (buf, r)
  {
    if IsFile(Buscar(v, path)) {
      var n := Buscar(v, path).value;
      var data := Overlay(n.data + junk, offset, buf);
      Reached(v, path, n.(data := data, meta := n.meta.(modificacion := now, cambio := now)), q);
      BuscarExact(v, path);
      assert buf != [] ==> data[offset..offset + |buf|] == buf;
    }
  }

  /** truncate sets the length of one file, keeps the bytes before it and fills with zeros. */
  lemma TruncateChangesOne(v: Node, path: Path, size: nat, now: nat, w: Node, r: int, q: Path)
    requires (w, r) == Truncate(v, path, size, now)
    ensures r == 0 <==> IsFile(Buscar(v, path))
    ensures r == ENOENT <==> Buscar(v, path).None?
    ensures r != 0 ==> w == v
    ensures r == 0 ==>
              && (q != Stop(v, path) ==> Shown(Find(w, q)) == Shown(Find(v, q)))
              && IsFile(Find(v, Stop(v, path))) && IsFile(Find(w, Stop(v, path)))
              && var before, after := Find(v, Stop(v, path)).value.data, Find(w, Stop(v, path)).value.data;
              && |after| == size
              && (forall k :: 0 <= k < size ==> after[k] == if k < |before| then before[k] else 0)
  {
    if IsFile(Buscar(v, path)) {
      var n := Buscar(v, path).value;
      var data := if size <= |n.data| then n.data[..size] else n.data + Zeros(size - |n.data|);
      Reached(v, path, n.(data := data, meta := n.meta.(modificacion := now, cambio := now)), q);
      BuscarExact(v, path);
    }
  }

  // ---------------------------------------------------------------- all runs

  datatype Op =
    | Make(path: Path, meta: Meta, dir: bool, id: nat, now: nat)     // create, mkdir
    | Remove(path: Path, now: nat)                                   // unlink
    | RemoveDir(path: Path, now: nat)                                // rmdir
    | WriteAt(path: Path, buf: seq<nat>, offset: nat, junk: seq<nat>, now: nat)
    | Resize(path: Path, size: nat, now: nat)

  function NewNode(op: Op): Node
    requires op.Make? && op.path != []
  {
    Node(op.id, Last(op.path), op.meta, op.dir, [], [])
  }

  ghost predicate Allowed(v: Node, op: Op) {
    && (op.Make? || (op.Remove? && PassesFile(v, op.path)) ==> Proper(op.path))
    && (op.WriteAt? && IsFile(Buscar(v, op.path)) ==> |op.junk| == Extra(Buscar(v, op.path).value.data, |op.buf|, op.offset))
  }

  function Apply(v: Node, op: Op): (Node, int)
    requires Allowed(v, op)
  {
    match op
    case Make(path, _, _, _, now) => if path == [] then (v, ENOENT) else Insert(v, path, NewNode(op), now)
    case Remove(path, now) => Unlink(v, path, now)
    case RemoveDir(path, now) => Rmdir(v, path, now)
    case WriteAt(path, buf, offset, junk, now) => Write(v, path, buf, offset, junk, now)
    case Resize(path, size, now) => Truncate(v, path, size, now)
  }

  lemma SiblingsAppend(d: Node, child: Node, now: nat)
    requires TreeOk(d) && d.dir && TreeOk(child) && Index(d.kids, child.name) == |d.kids|
    requires |child.name| < MAX_FILENAME_LENGTH
    ensures TreeOk(Touch(d.(kids := d.kids + [child]), now))
  {
  }

  lemma SiblingsRemove(d: Node, i: nat, now: nat)
    requires TreeOk(d) && d.dir && i < |d.kids|
    ensures TreeOk(Touch(d.(kids := RemoveAt(d.kids, i)), now))
  {
    var k := RemoveAt(d.kids, i);
    forall j | 0 <= j < |k| ensures TreeOk(k[j]) && |k[j].name| < MAX_FILENAME_LENGTH {
      Remaining(d.kids, i, j);
    }
    forall j, l | 0 <= j < l < |k| ensures k[j].name != k[l].name {
      Remaining(d.kids, i, j);
      Remaining(d.kids, i, l);
    }
  }

  lemma EliminarKeeps(v: Node, path: Path, now: nat)
    requires TreeOk(v)
    ensures TreeOk(Eliminar(v, path, now)) && Eliminar(v, path, now).dir == v.dir
  {
    if path != [] && BuscarPadre(v, path).Some? && BuscarPadre(v, path).value.dir {
      var p := Parent(path);
      BuscarExact(v, p);
      FindTreeOk(v, p);
      var d := Find(v, p).value;
      var i := Index(d.kids, Last(path));
      if i < |d.kids| {
        SiblingsRemove(d, i, now);
        SetTreeOk(v, p, Touch(d.(kids := RemoveAt(d.kids, i)), now));
      }
    }
  }

  /** Every operation keeps the tree a tree: files have no children, directories no bytes, and
      siblings have different names, all shorter than 64 characters. */
  lemma ApplyKeeps(v: Node, op: Op)
    requires TreeOk(v) && v.dir && Allowed(v, op)
    ensures TreeOk(Apply(v, op).0) && Apply(v, op).0.dir
  {
    match op
    case Make(path, _, _, _, now) =>
      if path != [] && BuscarPadre(v, path).Some? && BuscarPadre(v, path).value.dir && Buscar(v, path).None? {
        var p := Parent(path);
        BuscarExact(v, p);
        ParentDir(v, path);
        ChildOf(v, path);
        FindTreeOk(v, p);
        var d := Find(v, p).value;
        SiblingsAppend(d, NewNode(op), now);
        SetTreeOk(v, p, Touch(d.(kids := d.kids + [NewNode(op)]), now));
      }
    case Remove(path, now) => EliminarKeeps(v, path, now);
    case RemoveDir(path, now) => EliminarKeeps(v, path, now);
    case _ =>
      if IsFile(Buscar(v, op.path)) {
        FileKeeps(v, op);
      }
  }

  lemma FileKeeps(v: Node, op: Op)
    requires TreeOk(v) && v.dir && Allowed(v, op) && (op.WriteAt? || op.Resize?) && IsFile(Buscar(v, op.path))
    ensures TreeOk(Apply(v, op).0) && Apply(v, op).0.dir
  {
    var p, n := Stop(v, op.path), Buscar(v, op.path).value;
    BuscarExact(v, op.path);
    FindTreeOk(v, p);
    assert p != [];
    if op.WriteAt? {
      var m := n.meta.(modificacion := op.now, cambio := op.now);
      SetTreeOk(v, p, n.(data := Overlay(n.data + op.junk, op.offset, op.buf), meta := m));
    } else {
      var data := if op.size <= |n.data| then n.data[..op.size] else n.data + Zeros(op.size - |n.data|);
      SetTreeOk(v, p, n.(data := data, meta := n.meta.(modificacion := op.now, cambio := op.now)));
    }
  }
}
