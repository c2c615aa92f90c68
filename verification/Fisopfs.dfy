/** The inodes of fisopfs/fisopfs.c on the heap, changed in place. */
module Fisopfs {
  import opened Base
  import opened Files
  import opened Image

  datatype Inode = Inode(nombre: string, meta: Meta, esDirectorio: bool, contenido: seq<nat>, hijos: seq<nat>)

  type Heap = map<nat, Inode>

  // ---------------------------------------------------------------- a tree on the heap

  function IdsOf(kids: seq<Node>): (s: seq<nat>)
    ensures |s| == |kids| && forall i :: 0 <= i < |kids| ==> s[i] == kids[i].id
  {
    seq(|kids|, i requires 0 <= i < |kids| => kids[i].id)
  }

  function Record(v: Node): Inode { Inode(v.name, v.meta, v.dir, v.data, IdsOf(v.kids)) }

  // The heap holds v, every inode at its address.
  ghost predicate Holds(h: Heap, v: Node)
    decreases v
  {
    v.id in h && h[v.id] == Record(v) && forall i :: 0 <= i < |v.kids| ==> Holds(h, v.kids[i])
  }

  ghost predicate Has(v: Node, id: nat)
    decreases v
  {
    id == v.id || exists i :: 0 <= i < |v.kids| && Has(v.kids[i], id)
  }

  // No address twice.
  ghost predicate Distinct(v: Node)
    decreases v
  {
    && (forall i :: 0 <= i < |v.kids| ==> Distinct(v.kids[i]) && !Has(v.kids[i], v.id))
    && (forall i, j, id: nat :: 0 <= i < j < |v.kids| && Has(v.kids[i], id) ==> !Has(v.kids[j], id))
  }

  lemma {:induction false} HoldsFrame(h: Heap, h1: Heap, v: Node)
    requires Holds(h, v) && forall id: nat :: Has(v, id) && id in h ==> id in h1 && h1[id] == h[id]
    ensures Holds(h1, v)
    decreases v
  {
    assert Has(v, v.id);
    forall i | 0 <= i < |v.kids| ensures Holds(h1, v.kids[i]) {
      forall id: nat | Has(v.kids[i], id) ensures Has(v, id) {
      }
      HoldsFrame(h, h1, v.kids[i]);
    }
  }

  lemma {:induction false} FindHas(v: Node, p: Path)
    requires Find(v, p).Some?
    ensures forall id: nat :: Has(Find(v, p).value, id) ==> Has(v, id)
    decreases |p|
  {
    if p != [] {
      FindHas(v.kids[Index(v.kids, p[0])], p[1..]);
    }
  }

  lemma {:induction false} FindHolds(h: Heap, v: Node, p: Path)
    requires Holds(h, v) && Distinct(v) && Find(v, p).Some?
    ensures Holds(h, Find(v, p).value) && Distinct(Find(v, p).value)
    decreases |p|
  {
    if p != [] {
      FindHolds(h, v.kids[Index(v.kids, p[0])], p[1..]);
    }
  }

  // Addresses in the new part are old ones of that part, or the extra one.
  ghost predicate Grown(was: Node, n: Node, extra: Option<nat>) {
    forall id: nat :: Has(n, id) ==> Has(was, id) || extra == Some(id)
  }

  ghost predicate Unused(v: Node, extra: Option<nat>) { extra.Some? ==> !Has(v, extra.value) }

  lemma OtherKids(h: Heap, h1: Heap, v: Node, i: nat, part: Node)
    requires Holds(h, v) && Distinct(v) && i < |v.kids| && forall id: nat :: Has(part, id) ==> Has(v.kids[i], id)
    requires forall id: nat :: id in h && !Has(part, id) ==> id in h1 && h1[id] == h[id]
    ensures forall j :: 0 <= j < |v.kids| && j != i ==> Holds(h1, v.kids[j])
  {
    forall j | 0 <= j < |v.kids| && j != i ensures Holds(h1, v.kids[j]) {
      forall id: nat | Has(v.kids[j], id) ensures !Has(part, id) {
        assert Has(v.kids[i], id) ==> i == j;
      }
      HoldsFrame(h, h1, v.kids[j]);
    }
  }

  // A node with its i-th child replaced.
  lemma KidReplaced(h: Heap, h1: Heap, v: Node, i: nat, k: Node, extra: Option<nat>)
    requires Holds(h, v) && Distinct(v) && i < |v.kids| && Unused(v, extra) && k.id == v.kids[i].id
    requires Holds(h1, k) && Distinct(k) && Grown(v.kids[i], k, extra)
    requires forall j :: 0 <= j < |v.kids| && j != i ==> Holds(h1, v.kids[j])
    requires v.id in h1 && h1[v.id] == h[v.id]
    ensures var w := v.(kids := v.kids[i := k]);
            Holds(h1, w) && Distinct(w) && Grown(v, w, extra)
  {
    var w := v.(kids := v.kids[i := k]);
    assert IdsOf(w.kids) == IdsOf(v.kids);
    forall j, l, id: nat | 0 <= j < l < |w.kids| && Has(w.kids[j], id) ensures !Has(w.kids[l], id) {
      if j == i {
        assert Has(v.kids[i], id) || extra == Some(id);
      } else if l == i {
        assert Has(v.kids[j], id) && Has(v, id);
      }
    }
  }

  /** Changing the heap only inside the part at p, from `was` to n, changes the tree there. */
  lemma {:induction false} SetHolds(h: Heap, h1: Heap, v: Node, p: Path, n: Node, extra: Option<nat>)
    requires Holds(h, v) && Distinct(v) && Find(v, p).Some? && Unused(v, extra)
    requires n.id == Find(v, p).value.id && Grown(Find(v, p).value, n, extra)
    requires Holds(h1, n) && Distinct(n)
    requires forall id: nat :: id in h && !Has(Find(v, p).value, id) ==> id in h1 && h1[id] == h[id]
    ensures Holds(h1, Set(v, p, n)) && Distinct(Set(v, p, n)) && Set(v, p, n).id == v.id
    ensures Grown(v, Set(v, p, n), extra)
    decreases |p|
  {
    if p != [] {
      var i := Index(v.kids, p[0]);
      assert Unused(v.kids[i], extra);
      SetHolds(h, h1, v.kids[i], p[1..], n, extra);
      FindHas(v.kids[i], p[1..]);
      OtherKids(h, h1, v, i, Find(v, p).value);
      KidReplaced(h, h1, v, i, Set(v.kids[i], p[1..], n), extra);
    }
  }

  // ---------------------------------------------------------------- the code

  function Address(n: Option<Node>): Option<nat> { if n.None? then None else Some(n.value.id) }

  lemma {:induction false} IndexIs(kids: seq<Node>, name: string, i: nat)
    requires i <= |kids| && (i < |kids| ==> kids[i].name == name)
    requires forall j :: 0 <= j < i ==> kids[j].name != name
    ensures Index(kids, name) == i
    decreases |kids|
  {
    if i > 0 {
      IndexIs(kids[1..], name, i - 1);
    }
  }

  class Filesystem {
    var inodes: Heap
    var raiz: nat
    var disco: Bytes
    ghost var tree: Node

    ghost predicate Valid()
      reads this
    {
      Holds(inodes, tree) && Distinct(tree) && TreeOk(tree) && tree.dir && tree.id == raiz
    }

    /** A new filesystem: an empty root, as crear_inode makes it. */
    constructor (addr: nat, meta: Meta, disco: Bytes)
      ensures Valid() && tree == Node(addr, "/", meta, true, [], []) && this.disco == disco
    {
      raiz := addr;
      tree := Node(addr, "/", meta, true, [], []);
      inodes := map[addr := Inode("/", meta, true, [], [])];
      this.disco := disco;
    }

    // The loop over hijos of buscar_inode.
    method Hijo(dir: nat, name: string, ghost d: Node) returns (i: nat)
      requires Holds(inodes, d) && d.id == dir
      ensures i == Index(d.kids, name)
    {
      var hijos := inodes[dir].hijos;
      i := 0;
      while i < |hijos|
        invariant 0 <= i <= |hijos|
        invariant forall j :: 0 <= j < i ==> d.kids[j].name != name
      {
        assert Holds(inodes, d.kids[i]);
        if inodes[hijos[i]].nombre == name {
          break;
        }
        i := i + 1;
      }
      IndexIs(d.kids, name, i);
    }

    method BuscarInode(path: Path) returns (r: Option<nat>)
      requires Valid()
      ensures r == Address(Buscar(tree, path))
      ensures Buscar(tree, path).Some? ==> Holds(inodes, Buscar(tree, path).value)
    {
      var actual := raiz;
      ghost var cur := tree;
      var k := 0;
      assert path[0..] == path;
      while k < |path| && inodes[actual].esDirectorio
        invariant 0 <= k <= |path| && Holds(inodes, cur) && cur.id == actual
        invariant Buscar(tree, path) == Buscar(cur, path[k..])
      {
        var i := Hijo(actual, path[k], cur);
        if i == |inodes[actual].hijos| {
          return None;
        }
        assert path[k..][1..] == path[k + 1..];
        actual := inodes[actual].hijos[i];
        cur := cur.kids[i];
        k := k + 1;
      }
      r := Some(actual);
    }

    method Padre(path: Path) returns (r: Option<nat>)
      requires Valid()
      ensures r == Address(BuscarPadre(tree, path))
      ensures BuscarPadre(tree, path).Some? ==> Holds(inodes, BuscarPadre(tree, path).value)
    {
      if path == [] {
        return None;
      }
      r := BuscarInode(path[..|path| - 1]);
    }

    // The inode at p becomes n, which keeps its address.
    ghost method Replace(p: Path, n: Node, extra: Option<nat>, before: Heap)
      requires Holds(before, tree) && Distinct(tree) && TreeOk(tree) && tree.dir && tree.id == raiz
      requires Find(tree, p).Some? && Unused(tree, extra) && TreeOk(n)
      requires n.id == Find(tree, p).value.id && n.name == Find(tree, p).value.name && n.dir == Find(tree, p).value.dir
      requires Grown(Find(tree, p).value, n, extra) && Holds(inodes, n) && Distinct(n)
      requires forall id: nat :: id in before && !Has(Find(tree, p).value, id) ==> id in inodes && inodes[id] == before[id]
      modifies this`tree
      ensures Valid() && tree == Set(old(tree), p, n)
    {
      SetHolds(before, inodes, tree, p, n, extra);
      SetTreeOk(tree, p, n);
      tree := Set(tree, p, n);
    }

    /** mkdir and create: the tree changes as in Apply, and the image is that of the tree before. */
    method Make(path: Path, meta: Meta, dir: bool, addr: nat, now: nat) returns (r: int)
      requires Valid() && Proper(path) && addr !in inodes && !Has(tree, addr)
      modifies this
      ensures Valid() && (tree, r) == Apply(old(tree), Op.Make(path, meta, dir, addr, now))
      ensures disco == if r >= 0 then Save(old(tree), []) else old(disco)
    {
      var padre := Padre(path);
      if padre.None? || !inodes[padre.value].esDirectorio {
        return ENOENT;
      }
      var hay := BuscarInode(path);
      if hay.Some? {
        return EEXIST;
      }
      ghost var child := Node(addr, Last(path), meta, dir, [], []);
      ghost var before := inodes;
      inodes := inodes[addr := Inode(path[|path| - 1], meta, dir, [], [])];
      GuardarFs(before);
      AgregarHijo(path, padre.value, addr, child, now, before);
      r := 0;
    }

    method GuardarFs(ghost before: Heap)
      requires Holds(before, tree) && tree.id == raiz
      requires forall id: nat :: id in before ==> id in inodes && inodes[id] == before[id]
      modifies this`disco
      ensures disco == Save(tree, [])
    {
      HoldsFrame(before, inodes, tree);
      disco := [];
      Guardar(raiz, tree);
      assert [] + Save(tree, []) == Save(tree, []);
    }

    method FwriteNum(n: nat, w: nat)
      modifies this`disco
      ensures disco == old(disco) + Put(n, w, [])
    {
      disco := disco + Put(n, w, []);
    }

    // The fixed fields of guardar_inode; of the link count only the low four bytes are written.
    method FwriteAll(campos: seq<nat>, ghost v: Node)
      requires |campos| == |WIDTHS| && campos[7] == v.meta.enlaces && campos[7 := v.meta.enlaces % LINKS] == Fields(v)
      modifies this`disco
      ensures disco == old(disco) + Header(v)
    {
      ghost var ns := Fields(v);
      for i := 0 to |campos|
        invariant disco + PutAll(ns[i..], WIDTHS[i..], []) == old(disco) + Header(v)
      {
        ghost var d := disco;
        FwriteNum(campos[i], WIDTHS[i]);
        if i == 7 {
          PutLow(campos[7]);
        }
        NextField(ns, i, d);
      }
    }

    // guardar_inode
    method Guardar(id: nat, ghost v: Node)
      requires Holds(inodes, v) && v.id == id
      modifies this`disco
      ensures disco == old(disco) + Save(v, [])
      decreases v, 1
    {
      var node := inodes[id];
      var campos := [node.meta.modo, node.meta.uid, node.meta.gid, |node.contenido|, node.meta.acceso,
                     node.meta.modificacion, node.meta.cambio, node.meta.enlaces,
                     if node.esDirectorio then 1 else 0, |node.nombre|];
      FwriteAll(campos, v);
      disco := disco + Chars(node.nombre);
      if node.esDirectorio {
        FwriteNum(|node.hijos|, 8);
        GuardarHijos(node.hijos, v);
      } else {
        disco := disco + node.contenido;
      }
      SavedAs(v, old(disco), disco);
    }

    method GuardarHijos(hijos: seq<nat>, ghost v: Node)
      requires hijos == IdsOf(v.kids) && forall i :: 0 <= i < |v.kids| ==> Holds(inodes, v.kids[i])
      modifies this`disco
      ensures disco == old(disco) + SaveFrom(v, 0, [])
      decreases v, 0
    {
      for i := 0 to |hijos|
        invariant disco + SaveFrom(v, i, []) == old(disco) + SaveFrom(v, 0, [])
      {
        ghost var d := disco;
        Guardar(hijos[i], v.kids[i]);
        SaveAppend(v.kids[i], SaveFrom(v, i + 1, []));
        assert disco + SaveFrom(v, i + 1, []) == d + SaveFrom(v, i, []);
      }
    }

    method AgregarHijo(ghost path: Path, padre: nat, hijo: nat, ghost child: Node, now: nat, ghost before: Heap)
      requires path != [] && Proper(path) && Holds(before, tree) && Distinct(tree) && TreeOk(tree) && tree.dir && tree.id == raiz
      requires IsDir(BuscarPadre(tree, path)) && BuscarPadre(tree, path).value.id == padre && Buscar(tree, path).None?
      requires child.id == hijo && !Has(tree, child.id) && child.id !in before && child.kids == [] && child.data == []
      requires child.name == Last(path) && inodes == before[child.id := Record(child)]
      modifies this`inodes, this`tree
      ensures Valid() && tree == Insert(old(tree), path, child, now).0
    {
      DirForChild(before, tree, path, child, now);
      ghost var p := Parent(path);
      ghost var d := Find(tree, p).value;
      ghost var n := Touch(d.(kids := d.kids + [child]), now);
      var v := inodes[padre];
      inodes := inodes[padre := v.(hijos := v.hijos + [hijo], meta := v.meta.(modificacion := now))];
      assert IdsOf(n.kids) == IdsOf(d.kids) + [child.id];
      AddedHolds(before, inodes, d, child, now);
      assert Has(d, d.id);
      Replace(p, n, Some(child.id), before);
    }

    // The first loop of eliminar_inode.
    static method Posicion(hijos: seq<nat>, target: nat) returns (i: nat)
      ensures i <= |hijos| && (i < |hijos| ==> hijos[i] == target) && target !in hijos[..i]
    {
      i := 0;
      while i < |hijos| && hijos[i] != target
        invariant i <= |hijos| && target !in hijos[..i]
      {
        i := i + 1;
      }
    }

    // Its second loop, and the realloc.
    static method Correr(hijos: seq<nat>, i: nat) returns (r: seq<nat>)
      requires i < |hijos|
      ensures r == RemoveAt(hijos, i)
    {
      r := hijos;
      for j := i to |hijos| - 1
        invariant |r| == |hijos|
        invariant forall k :: 0 <= k < |hijos| ==> r[k] == hijos[if i <= k < j then k + 1 else k]
      {
        r := r[j := r[j + 1]];
      }
      r := r[..|r| - 1];
    }

    // eliminar_inode, for the inode that BuscarInode found at path.
    method EliminarInode(ghost path: Path, padre: Option<nat>, target: nat, now: nat)
      requires Valid() && path != [] && padre == Address(BuscarPadre(tree, path))
      requires Buscar(tree, path).Some? && Buscar(tree, path).value.id == target && Buscar(tree, path).value.kids == []
      requires BuscarPadre(tree, path).Some? ==> Holds(inodes, BuscarPadre(tree, path).value)
      modifies this`inodes, this`tree
      ensures Valid() && tree == Eliminar(old(tree), path, now)
    {
      if padre.None? || !inodes[padre.value].esDirectorio {
        return;
      }
      DirOfTarget(inodes, tree, path);
      ghost var d := Find(tree, Parent(path)).value;
      ghost var j := Index(d.kids, Last(path));
      var i := Posicion(inodes[padre.value].hijos, target);
      assert IdsOf(d.kids)[j] == target;
      if i < |inodes[padre.value].hijos| {
        OnlyTarget(d, i, j);
        Quitar(Parent(path), padre.value, i, now);
      }
    }

    // Free the i-th child, which has no children, and close the gap.
    method Quitar(ghost p: Path, padre: nat, i: nat, now: nat)
      requires Valid() && IsDir(Find(tree, p)) && Find(tree, p).value.id == padre
      requires Holds(inodes, Find(tree, p).value) && Distinct(Find(tree, p).value) && TreeOk(Find(tree, p).value)
      requires i < |Find(tree, p).value.kids| && Find(tree, p).value.kids[i].kids == []
      modifies this`inodes, this`tree
      ensures Valid()
      ensures var d := Find(old(tree), p).value;
              tree == Set(old(tree), p, Touch(d.(kids := RemoveAt(d.kids, i)), now))
    {
      ghost var before, d := inodes, Find(tree, p).value;
      var v := inodes[padre];
      inodes := inodes - {v.hijos[i]};
      var hijos := Correr(v.hijos, i);
      inodes := inodes[padre := v.(hijos := hijos, meta := v.meta.(modificacion := now))];
      assert hijos == IdsOf(RemoveAt(d.kids, i));
      RemovedHolds(before, inodes, d, i, now);
      SiblingsRemove(d, i, now);
      Replace(p, Touch(d.(kids := RemoveAt(d.kids, i)), now), None, before);
    }

    /** unlink */
    method Unlink(path: Path, now: nat) returns (r: int)
      requires Valid() && (PassesFile(tree, path) ==> Proper(path))
      modifies this
      ensures Valid() && (tree, r) == Apply(old(tree), Remove(path, now))
      ensures disco == if r >= 0 then Save(tree, []) else old(disco)
    {
      var node := BuscarInode(path);
      if node.None? || inodes[node.value].esDirectorio {
        return EISDIR;
      }
      BuscarTreeOk(tree, path);
      var padre := Padre(path);
      EliminarInode(path, padre, node.value, now);
      GuardarFs(inodes);
      r := 0;
    }

    /** rmdir */
    method Rmdir(path: Path, now: nat) returns (r: int)
      requires Valid()
      modifies this
      ensures Valid() && (tree, r) == Apply(old(tree), RemoveDir(path, now))
      ensures disco == if r >= 0 then Save(tree, []) else old(disco)
    {
      var node := BuscarInode(path);
      if node.None? || !inodes[node.value].esDirectorio || |inodes[node.value].hijos| > 0 {
        return ENOTEMPTY;
      }
      var padre := Padre(path);
      if padre.Some? {
        EliminarInode(path, padre, node.value, now);
      }
      GuardarFs(inodes);
      r := 0;
    }

    // A file gets new bytes and times.
    method PutData(ghost path: Path, node: nat, data: seq<nat>, now: nat)
      requires Valid() && IsFile(Buscar(tree, path)) && Buscar(tree, path).value.id == node
      requires Holds(inodes, Buscar(tree, path).value)
      modifies this`inodes, this`tree
      ensures Valid()
      ensures var n := Buscar(old(tree), path).value;
              tree == Set(old(tree), Stop(old(tree), path),
                          n.(data := data, meta := n.meta.(modificacion := now, cambio := now)))
    {
      ghost var before := inodes;
      ghost var p := Stop(tree, path);
      BuscarExact(tree, path);
      FindHolds(inodes, tree, p);
      FindTreeOk(tree, p);
      ghost var n := Find(tree, p).value;
      var v := inodes[node];
      inodes := inodes[node := v.(contenido := data, meta := v.meta.(modificacion := now, cambio := now))];
      Replace(p, n.(data := data, meta := n.meta.(modificacion := now, cambio := now)), None, before);
    }

    /** write */
    method Escribir(path: Path, buf: seq<nat>, offset: nat, junk: seq<nat>, now: nat) returns (r: int)
      requires Valid() && Allowed(tree, WriteAt(path, buf, offset, junk, now))
      modifies this
      ensures Valid() && (tree, r) == Apply(old(tree), WriteAt(path, buf, offset, junk, now))
      ensures disco == if r >= 0 then Save(tree, []) else old(disco)
    {
      var node := BuscarInode(path);
      if node.None? || inodes[node.value].esDirectorio {
        return EISDIR;
      }
      var contenido := inodes[node.value].contenido;
      if offset + |buf| > |contenido| {
        contenido := contenido + junk;                                            // realloc
      }
      contenido := contenido[..offset] + buf + contenido[offset + |buf|..];       // memcpy
      assert contenido == Overlay(Buscar(tree, path).value.data + junk, offset, buf);
      PutData(path, node.value, contenido, now);
      GuardarFs(inodes);
      r := |buf|;
    }

    /** read */
    method Leer(path: Path, size: nat, offset: nat) returns (bytes: seq<nat>, r: int)
      requires Valid()
      ensures (bytes, r) == Read(tree, path, size, offset)
    {
      var node := BuscarInode(path);
      if node.None? || inodes[node.value].esDirectorio {
        return [], EISDIR;
      }
      var contenido := inodes[node.value].contenido;
      if offset < |contenido| {
        var n := size;
        if offset + size > |contenido| {
          n := |contenido| - offset;
        }
        return contenido[offset..offset + n], n;
      }
      bytes, r := [], 0;
    }

    /** truncate */
    method Truncar(path: Path, size: nat, now: nat) returns (r: int)
      requires Valid()
      modifies this
      ensures Valid() && (tree, r) == Apply(old(tree), Resize(path, size, now))
      ensures disco == if r >= 0 then Save(tree, []) else old(disco)
    {
      var node := BuscarInode(path);
      if node.None? {
        return ENOENT;
      }
      if inodes[node.value].esDirectorio {
        return EISDIR;
      }
      var contenido := inodes[node.value].contenido;
      if size == 0 {
        contenido := [];
      } else if size > |contenido| {
        contenido := contenido + Zeros(size - |contenido|);
      } else {
        contenido := contenido[..size];
      }
      assert contenido == if size <= |Buscar(tree, path).value.data| then Buscar(tree, path).value.data[..size]
                          else Buscar(tree, path).value.data + Zeros(size - |Buscar(tree, path).value.data|);
      PutData(path, node.value, contenido, now);
      GuardarFs(inodes);
      r := 0;
    }
  }

  lemma {:induction false} BuscarTreeOk(v: Node, p: Path)
    requires TreeOk(v) && Buscar(v, p).Some?
    ensures TreeOk(Buscar(v, p).value)
    decreases |p|
  {
    if p != [] && v.dir {
      BuscarTreeOk(v.kids[Index(v.kids, p[0])], p[1..]);
    }
  }

  // A directory found as parent has the inode found at the path as its child of that name.
  lemma DirOfTarget(h: Heap, v: Node, path: Path)
    requires path != [] && Holds(h, v) && Distinct(v) && TreeOk(v) && IsDir(BuscarPadre(v, path)) && Buscar(v, path).Some?
    ensures IsDir(Find(v, Parent(path))) && Find(v, Parent(path)) == BuscarPadre(v, path)
    ensures var d := Find(v, Parent(path)).value;
            var i := Index(d.kids, Last(path));
            Holds(h, d) && Distinct(d) && TreeOk(d) && i < |d.kids| && Some(d.kids[i]) == Buscar(v, path)
  {
    var p := Parent(path);
    BuscarExact(v, p);
    ParentDir(v, path);
    ChildOf(v, path);
    FindHolds(h, v, p);
    FindTreeOk(v, p);
  }

  lemma OnlyTarget(d: Node, i: nat, j: nat)
    requires Distinct(d) && i < |d.kids| && j < |d.kids| && d.kids[i].id == d.kids[j].id
    ensures i == j
  {
    assert Has(d.kids[i], d.kids[i].id) && Has(d.kids[j], d.kids[j].id);
  }

  lemma RemovedHolds(h: Heap, h1: Heap, d: Node, i: nat, now: nat)
    requires Holds(h, d) && Distinct(d) && i < |d.kids| && d.kids[i].kids == []
    requires h1 == (h - {d.kids[i].id})[d.id := Record(Touch(d.(kids := RemoveAt(d.kids, i)), now))]
    ensures var n := Touch(d.(kids := RemoveAt(d.kids, i)), now);
            Holds(h1, n) && Distinct(n) && Grown(d, n, None)
  {
    var n := Touch(d.(kids := RemoveAt(d.kids, i)), now);
    assert forall j :: 0 <= j < |n.kids| ==> n.kids[j] == d.kids[if j < i then j else j + 1];
    assert Has(d.kids[i], d.kids[i].id);
    forall j | 0 <= j < |d.kids| && j != i ensures Holds(h1, d.kids[j]) {
      forall id: nat | Has(d.kids[j], id) ensures id != d.id && id != d.kids[i].id {
      }
      HoldsFrame(h, h1, d.kids[j]);
    }
  }

  // What the directory is before it gets a child.
  lemma DirForChild(h: Heap, v: Node, path: Path, child: Node, now: nat)
    requires path != [] && Proper(path) && Holds(h, v) && Distinct(v) && TreeOk(v) && v.dir
    requires IsDir(BuscarPadre(v, path)) && Buscar(v, path).None?
    requires !Has(v, child.id) && child.kids == [] && child.data == [] && child.name == Last(path)
    ensures IsDir(Find(v, Parent(path))) && Find(v, Parent(path)) == BuscarPadre(v, path)
    ensures var d := Find(v, Parent(path)).value;
            && Holds(h, d) && Distinct(d) && !Has(d, child.id)
            && TreeOk(Touch(d.(kids := d.kids + [child]), now))
  {
    var p := Parent(path);
    BuscarExact(v, p);
    ParentDir(v, path);
    ChildOf(v, path);
    FindHolds(h, v, p);
    FindTreeOk(v, p);
    FindHas(v, p);
    SiblingsAppend(Find(v, p).value, child, now);
  }

  lemma NextField(ns: seq<nat>, i: nat, d: Bytes)
    requires i < |ns| == |WIDTHS|
    ensures d + Put(ns[i], WIDTHS[i], []) + PutAll(ns[i + 1..], WIDTHS[i + 1..], []) == d + PutAll(ns[i..], WIDTHS[i..], [])
  {
    assert ns[i..][1..] == ns[i + 1..] && WIDTHS[i..][1..] == WIDTHS[i + 1..];
    PutAppend(ns[i], WIDTHS[i], PutAll(ns[i + 1..], WIDTHS[i + 1..], []));
  }

  // The pieces that guardar_inode writes make up Save.
  lemma SavedAs(v: Node, d: Bytes, d1: Bytes)
    requires d1 == if v.dir then d + Header(v) + Chars(v.name) + Put(|v.kids|, 8, []) + SaveFrom(v, 0, [])
                   else d + Header(v) + Chars(v.name) + v.data
    ensures d1 == d + Save(v, [])
  {
    SaveAppend(v, []);
    if v.dir {
      PutAppend(|v.kids|, 8, SaveFrom(v, 0, []));
      Assoc(d, Header(v), Chars(v.name), Put(|v.kids|, 8, []), SaveFrom(v, 0, []));
    } else {
      Assoc(d, Header(v), Chars(v.name), v.data, []);
    }
  }

  lemma Assoc(a: Bytes, b: Bytes, c: Bytes, d: Bytes, e: Bytes)
    ensures a + b + c + d + e == a + (b + (c + (d + e)))
  {
  }

  lemma AddedHolds(h: Heap, h1: Heap, d: Node, child: Node, now: nat)
    requires Holds(h, d) && Distinct(d) && !Has(d, child.id) && child.kids == [] && child.id !in h
    requires h1 == h[child.id := Record(child)][d.id := Record(Touch(d.(kids := d.kids + [child]), now))]
    ensures var n := Touch(d.(kids := d.kids + [child]), now);
            Holds(h1, n) && Distinct(n) && Grown(d, n, Some(child.id))
  {
    var n := Touch(d.(kids := d.kids + [child]), now);
    assert Has(d, d.id);
    forall i | 0 <= i < |d.kids| ensures Holds(h1, d.kids[i]) {
      forall id: nat | Has(d.kids[i], id) ensures Has(d, id) && id != d.id {
      }
      HoldsFrame(h, h1, d.kids[i]);
    }
    assert Holds(h1, child);
    assert forall i :: 0 <= i < |d.kids| ==> n.kids[i] == d.kids[i];
    forall id: nat | Has(n, id) ensures Has(d, id) || id == child.id {
      if id != n.id {
        var i :| 0 <= i < |n.kids| && Has(n.kids[i], id);
      }
    }
  }

  // ---------------------------------------------------------------- loading

  // Addresses from lo up to hi only.
  ghost predicate Within(v: Node, lo: nat, hi: nat) { forall id: nat :: Has(v, id) ==> lo <= id < hi }

  // Children loaded one after the other.
  ghost predicate AllLoaded(h: Heap, kids: seq<Node>, lo: nat, hi: nat) {
    && (forall i :: 0 <= i < |kids| ==> Holds(h, kids[i]) && Distinct(kids[i]) && Within(kids[i], lo, hi))
    && (forall i, j, id: nat :: 0 <= i < j < |kids| && Has(kids[i], id) ==> !Has(kids[j], id))
  }

  lemma AppendLoaded(h: Heap, h1: Heap, kids: seq<Node>, k: Node, lo: nat, mid: nat, hi: nat)
    requires AllLoaded(h, kids, lo, mid) && lo <= mid <= hi && Holds(h1, k) && Distinct(k) && Within(k, mid, hi)
    requires forall id: nat :: id in h ==> id in h1 && h1[id] == h[id]
    ensures AllLoaded(h1, kids + [k], lo, hi)
  {
    forall i | 0 <= i < |kids| ensures Holds(h1, kids[i]) {
      HoldsFrame(h, h1, kids[i]);
    }
  }

  function AllUnplaced(kids: seq<Node>): seq<Node> {
    seq(|kids|, i requires 0 <= i < |kids| => Unplaced(kids[i]))
  }

  // Having read f, what is still to be read with widths ws completes the fields of bs0.
  ghost predicate FieldsSoFar(bs0: Bytes, f: seq<nat>, bs: Bytes, ws: seq<nat>) {
    && GetAll(bs0, WIDTHS).Some? && GetAll(bs, ws).Some?
    && GetAll(bs0, WIDTHS).value.0 == f + GetAll(bs, ws).value.0 && GetAll(bs0, WIDTHS).value.1 == GetAll(bs, ws).value.1
  }

  lemma FieldStep(bs0: Bytes, f: seq<nat>, bs: Bytes, i: nat)
    requires i < |WIDTHS| && FieldsSoFar(bs0, f, bs, WIDTHS[i..])
    ensures Get(bs, WIDTHS[i]).Some?
    ensures var (n, rest) := Get(bs, WIDTHS[i]).value; FieldsSoFar(bs0, f + [n], rest, WIDTHS[i + 1..])
  {
    assert WIDTHS[i..][1..] == WIDTHS[i + 1..] && WIDTHS[i..][0] == WIDTHS[i];
    var (n, rest) := Get(bs, WIDTHS[i]).value;
    assert f + GetAll(bs, WIDTHS[i..]).value.0 == (f + [n]) + GetAll(rest, WIDTHS[i + 1..]).value.0;
  }

  // Having read the children us, the n that are still to be read complete those of bs0.
  ghost predicate KidsSoFar(bs0: Bytes, n0: nat, us: seq<Node>, bs: Bytes, n: nat) {
    && LoadKids(bs0, n0).Some? && LoadKids(bs, n).Some?
    && LoadKids(bs0, n0).value.0 == us + LoadKids(bs, n).value.0 && LoadKids(bs0, n0).value.1 == LoadKids(bs, n).value.1
  }

  lemma KidStep(bs0: Bytes, n0: nat, us: seq<Node>, bs: Bytes, n: nat)
    requires n > 0 && KidsSoFar(bs0, n0, us, bs, n)
    ensures Load(bs).Some?
    ensures var (k, rest) := Load(bs).value; KidsSoFar(bs0, n0, us + [k], rest, n - 1)
  {
    var (k, rest) := Load(bs).value;
    assert us + LoadKids(bs, n).value.0 == (us + [k]) + LoadKids(rest, n - 1).value.0;
  }

  /** The stream that cargar_inode reads, and the heap that it builds the tree on. */
  class Loader {
    var resto: Bytes
    var inodes: Heap
    var next: nat        // what calloc returns next

    constructor (disco: Bytes)
      ensures resto == disco && Valid()
    {
      resto := disco;
      inodes := map[];
      next := 0;
    }

    ghost predicate Valid()
      reads this
    {
      forall id :: id in inodes ==> id < next
    }

    // The fixed fields, one fread each.
    method Campos() returns (f: seq<nat>)
      requires GetAll(resto, WIDTHS).Some?
      modifies this`resto
      ensures GetAll(old(resto), WIDTHS) == Some((f, resto))
    {
      f := [];
      assert WIDTHS[0..] == WIDTHS;
      for i := 0 to |WIDTHS|
        invariant |f| == i && FieldsSoFar(old(resto), f, resto, WIDTHS[i..])
      {
        FieldStep(old(resto), f, resto, i);
        var field := Get(resto, WIDTHS[i]);
        f := f + [field.value.0];
        resto := field.value.1;
      }
      assert WIDTHS[|WIDTHS|..] == [] && f + [] == f;
    }

    /** cargar_inode: builds at new addresses the tree that Load finds, and reads as far. */
    method CargarInode() returns (id: nat, ghost v: Node)
      requires Valid() && Load(resto).Some?
      modifies this
      ensures Valid() && old(next) <= next && Load(old(resto)) == Some((Unplaced(v), resto))
      ensures v.id == id && Holds(inodes, v) && Distinct(v) && Within(v, old(next), next)
      ensures forall id: nat :: id in old(inodes) ==> id in inodes && inodes[id] == old(inodes)[id]
      decreases |resto|, 0
    {
      HeaderTakes(resto);
      var f := Campos();
      id := next;
      next := next + 1;
      ghost var body := resto;
      var name := Text(resto[..f[9]]);
      resto := resto[f[9]..];
      var meta := Meta(f[0], f[1], f[2], f[4], f[5], f[6], f[7]);
      if f[8] != 0 {
        var n := Get(resto, 8).value.0;
        resto := Get(resto, 8).value.1;
        var hijos: seq<nat>;
        ghost var kids: seq<Node>;
        hijos, kids := CargarHijos(n);
        v := Node(id, name, meta, true, [], kids);
        assert hijos == IdsOf(kids);
        assert Unplaced(v).kids == AllUnplaced(kids);
        Rooted(inodes, inodes[id := Inode(name, meta, true, [], hijos)], v, old(next), next);
        inodes := inodes[id := Inode(name, meta, true, [], hijos)];
      } else {
        var contenido := resto[..f[3]];
        resto := resto[f[3]..];
        v := Node(id, name, meta, false, contenido, []);
        inodes := inodes[id := Inode(name, meta, false, contenido, [])];
        assert IdsOf([]) == [];
        assert Unplaced(v).kids == [];
      }
    }

    method CargarHijos(n: nat) returns (hijos: seq<nat>, ghost kids: seq<Node>)
      requires Valid() && LoadKids(resto, n).Some?
      modifies this
      ensures Valid() && old(next) <= next && LoadKids(old(resto), n) == Some((AllUnplaced(kids), resto))
      ensures hijos == IdsOf(kids) && AllLoaded(inodes, kids, old(next), next)
      ensures forall id: nat :: id in old(inodes) ==> id in inodes && inodes[id] == old(inodes)[id]
      decreases |resto|, 2
    {
      hijos, kids := [], [];
      for i := 0 to n
        invariant Valid() && old(next) <= next && |resto| <= |old(resto)|
        invariant KidsSoFar(old(resto), n, AllUnplaced(kids), resto, n - i)
        invariant hijos == IdsOf(kids) && AllLoaded(inodes, kids, old(next), next)
        invariant forall id: nat :: id in old(inodes) ==> id in inodes && inodes[id] == old(inodes)[id]
      {
        KidStep(old(resto), n, AllUnplaced(kids), resto, n - i);
        hijos, kids := CargarOtro(hijos, kids, old(next));
      }
      assert AllUnplaced(kids) + [] == AllUnplaced(kids);
    }

    method CargarOtro(hijos0: seq<nat>, ghost kids0: seq<Node>, ghost lo: nat) returns (hijos: seq<nat>, ghost kids: seq<Node>)
      requires Valid() && Load(resto).Some? && lo <= next && hijos0 == IdsOf(kids0) && AllLoaded(inodes, kids0, lo, next)
      modifies this
      ensures Valid() && old(next) <= next
      ensures AllUnplaced(kids) == AllUnplaced(kids0) + [Load(old(resto)).value.0] && resto == Load(old(resto)).value.1
      ensures hijos == IdsOf(kids) && AllLoaded(inodes, kids, lo, next)
      ensures forall id: nat :: id in old(inodes) ==> id in inodes && inodes[id] == old(inodes)[id]
      decreases |resto|, 1
    {
      var id: nat;
      ghost var k: Node;
      id, k := CargarInode();
      AppendLoaded(old(inodes), inodes, kids0, k, lo, old(next), next);
      hijos := hijos0 + [id];
      kids := kids0 + [k];
      assert AllUnplaced(kids) == AllUnplaced(kids0) + [Unplaced(k)];
    }
  }

  lemma Rooted(h: Heap, h1: Heap, v: Node, lo: nat, hi: nat)
    requires lo < hi && AllLoaded(h, v.kids, lo + 1, hi) && v.id == lo && h1 == h[lo := Record(v)]
    ensures Holds(h1, v) && Distinct(v) && Within(v, lo, hi)
  {
    forall i | 0 <= i < |v.kids| ensures Holds(h1, v.kids[i]) {
      HoldsFrame(h, h1, v.kids[i]);
    }
  }
}
