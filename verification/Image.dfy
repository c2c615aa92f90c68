/** The disk image of fisopfs/fisopfs.c: guardar_inode and cargar_inode. */
module Image {
  import opened Base
  import opened Files

  type Bytes = seq<nat>

  // ---------------------------------------------------------------- numbers

  function Pow(w: nat): nat { if w == 0 then 1 else 256 * Pow(w - 1) }

  // fwrite of the w low bytes of n, before `tail`.
  function Put(n: nat, w: nat, tail: Bytes): (r: Bytes)
    ensures |r| == w + |tail|
    decreases w, |tail|
  {
    if w == 0 then tail else [n % 256] + Put(n / 256, w - 1, tail)
  }

  // fread of w bytes.
  function Get(bs: Bytes, w: nat): (r: Option<(nat, Bytes)>)
    ensures r.Some? ==> |r.value.1| + w == |bs|
    decreases w, |bs|
  {
    if w == 0 then Some((0, bs))
    else if bs == [] then None
    else match Get(bs[1..], w - 1)
      case None => None
      case Some((n, rest)) => Some((bs[0] + 256 * n, rest))
  }

  // n splits at the lowest byte.
  lemma ModSplit(n: nat, m: nat)
    requires m > 0
    ensures n % (256 * m) == n % 256 + 256 * (n / 256 % m)
  {
    var q, r := n / 256 / m, n / 256 % m;
    assert n / 256 == m * q + r;
    assert n == (256 * m) * q + (256 * r + n % 256);
    ModUnique(n, 256 * m, q, 256 * r + n % 256);
  }

  lemma ModUnique(n: nat, m: nat, q: nat, r: nat)
    requires m > 0 && n == m * q + r && r < m
    ensures n % m == r
  {
    var p := n / m;
    assert n == m * p + n % m;
    assert m * (q - p) == n % m - r;
    if q > p {
      Scale(m, 1, q - p);
    } else if q < p {
      Scale(m, 1, p - q);
    }
  }

  lemma Scale(m: nat, a: nat, b: nat)
    requires a <= b
    ensures m * a <= m * b
  {
  }

  lemma {:induction false} GetPut(n: nat, w: nat, tail: Bytes)
    ensures Pow(w) > 0 && Get(Put(n, w, tail), w) == Some((n % Pow(w), tail))
    decreases w
  {
    if w > 0 {
      GetPut(n / 256, w - 1, tail);
      ModSplit(n, Pow(w - 1));
      assert Put(n, w, tail)[1..] == Put(n / 256, w - 1, tail);
    }
  }

  // The fixed fields of an inode, one after the other.
  function PutAll(ns: seq<nat>, ws: seq<nat>, tail: Bytes): (r: Bytes)
    requires |ns| == |ws|
    ensures |r| >= |tail|
    decreases |ns|, |tail|
  {
    if ns == [] then tail else Put(ns[0], ws[0], PutAll(ns[1..], ws[1..], tail))
  }

  function GetAll(bs: Bytes, ws: seq<nat>): (r: Option<(seq<nat>, Bytes)>)
    ensures r.Some? ==> |r.value.0| == |ws| && |r.value.1| <= |bs|
    decreases |ws|, |bs|
  {
    if ws == [] then Some(([], bs))
    else match Get(bs, ws[0])
      case None => None
      case Some((n, rest)) =>
        match GetAll(rest, ws[1..])
        case None => None
        case Some((ns, rest1)) => Some(([n] + ns, rest1))
  }

  ghost predicate AllFit(ns: seq<nat>, ws: seq<nat>) {
    |ns| == |ws| && forall i :: 0 <= i < |ns| ==> ns[i] < Pow(ws[i])
  }

  lemma {:induction false} GetPutAll(ns: seq<nat>, ws: seq<nat>, tail: Bytes)
    requires AllFit(ns, ws)
    ensures GetAll(PutAll(ns, ws, tail), ws) == Some((ns, tail))
    decreases |ns|
  {
    if ns != [] {
      GetPut(ns[0], ws[0], PutAll(ns[1..], ws[1..], tail));
      GetPutAll(ns[1..], ws[1..], tail);
      Small(ns[0], Pow(ws[0]));
      assert ns == [ns[0]] + ns[1..];
    }
  }

  lemma Small(n: nat, m: nat)
    requires n < m
    ensures n % m == n
  {
  }

  // ---------------------------------------------------------------- inodes

  // modo, usuario_id, grupo_id, tamano, acceso, modificacion, cambio_estado, enlaces as an int,
  // es_directorio, length of the name
  const WIDTHS: seq<nat> := [4, 4, 4, 8, 8, 8, 8, 4, 4, 8]
  const LINKS := 0x1_0000_0000

  function Fields(v: Node): (ns: seq<nat>)
    ensures |ns| == |WIDTHS|
  {
    [v.meta.modo, v.meta.uid, v.meta.gid, |v.data|, v.meta.acceso, v.meta.modificacion, v.meta.cambio,
     v.meta.enlaces % LINKS, if v.dir then 1 else 0, |v.name|]
  }

  function Chars(s: string): (r: Bytes)
    ensures |r| == |s| && forall i :: 0 <= i < |s| ==> r[i] == s[i] as nat
  {
    seq(|s|, i requires 0 <= i < |s| => s[i] as nat)
  }

  function Text(bs: Bytes): (s: string)
    ensures |s| == |bs| && forall i :: 0 <= i < |s| && bs[i] < 256 ==> s[i] as nat == bs[i]
  {
    seq(|bs|, i requires 0 <= i < |bs| => if bs[i] < 256 then bs[i] as char else '?')
  }

  // guardar_inode, with what follows it in the file.
  function Save(v: Node, tail: Bytes): Bytes
    decreases v, |v.kids| + 1
  {
    PutAll(Fields(v), WIDTHS, Chars(v.name) + if v.dir then Put(|v.kids|, 8, SaveFrom(v, 0, tail)) else v.data + tail)
  }

  function SaveFrom(v: Node, i: nat, tail: Bytes): Bytes
    requires i <= |v.kids|
    decreases v, |v.kids| - i
  {
    if i == |v.kids| then tail else Save(v.kids[i], SaveFrom(v, i + 1, tail))
  }

  // cargar_inode: the tree at the front of the file and what follows it; None where the file
  // ends before the tree does. The address of a loaded inode is not modelled: its id is 0.
  function Load(bs: Bytes): (r: Option<(Node, Bytes)>)
    ensures r.Some? ==> |r.value.1| < |bs|
    decreases |bs|, 0
  {
    match GetAll(bs, WIDTHS)
    case None => None
    case Some((f, rest)) => HeaderTakes(bs); LoadBody(f, rest)
  }

  // The name, then the children or the bytes.
  function LoadBody(f: seq<nat>, bs: Bytes): (r: Option<(Node, Bytes)>)
    requires |f| == |WIDTHS|
    ensures r.Some? ==> |r.value.1| <= |bs|
    decreases |bs|, 2
  {
    if |bs| < f[9] then None
    else
      var name, rest := Text(bs[..f[9]]), bs[f[9]..];
      var meta := Meta(f[0], f[1], f[2], f[4], f[5], f[6], f[7]);
      if f[8] != 0 then
        match Get(rest, 8)
        case None => None
        case Some((n, rest1)) =>
          (match LoadKids(rest1, n)
           case None => None
           case Some((kids, rest2)) => Some((Node(0, name, meta, true, [], kids), rest2)))
      else if |rest| < f[3] then None
      else Some((Node(0, name, meta, false, rest[..f[3]], []), rest[f[3]..]))
  }

  function LoadKids(bs: Bytes, n: nat): (r: Option<(seq<Node>, Bytes)>)
    ensures r.Some? ==> |r.value.1| <= |bs|
    decreases |bs|, 1
  {
    if n == 0 then Some(([], bs))
    else match Load(bs)
      case None => None
      case Some((k, rest)) =>
        match LoadKids(rest, n - 1)
        case None => None
        case Some((ks, rest1)) => Some(([k] + ks, rest1))
  }

  lemma HeaderTakes(bs: Bytes)
    ensures GetAll(bs, WIDTHS).Some? ==> |GetAll(bs, WIDTHS).value.1| < |bs|
  {
  }

  // What the image can hold: fields within their widths, bytes, and no bytes in directories.
  ghost predicate Storable(v: Node)
    decreases v
  {
    && AllFit(Fields(v), WIDTHS) && |v.kids| < Pow(8)
    && (v.dir ==> v.data == []) && (!v.dir ==> v.kids == [])
    && (forall i :: 0 <= i < |v.name| ==> v.name[i] as nat < 256)
    && forall i :: 0 <= i < |v.kids| ==> Storable(v.kids[i])
  }

  // The tree without addresses, and with the link counts that an int keeps.
  function Stored(v: Node): Node
    decreases v
  {
    v.(id := 0, meta := v.meta.(enlaces := v.meta.enlaces % LINKS),
       kids := seq(|v.kids|, i requires 0 <= i < |v.kids| => Stored(v.kids[i])))
  }

  function Unplaced(v: Node): Node
    decreases v
  {
    v.(id := 0, kids := seq(|v.kids|, i requires 0 <= i < |v.kids| => Unplaced(v.kids[i])))
  }

  ghost predicate LinksFit(v: Node)
    decreases v
  {
    v.meta.enlaces < LINKS && forall i :: 0 <= i < |v.kids| ==> LinksFit(v.kids[i])
  }

  function Body(v: Node, tail: Bytes): Bytes {
    Chars(v.name) + if v.dir then Put(|v.kids|, 8, SaveFrom(v, 0, tail)) else v.data + tail
  }

  lemma NameFirst(v: Node, rest: Bytes)
    requires forall i :: 0 <= i < |v.name| ==> v.name[i] as nat < 256
    ensures (Chars(v.name) + rest)[..|v.name|] == Chars(v.name) && (Chars(v.name) + rest)[|v.name|..] == rest
    ensures Text(Chars(v.name)) == v.name
  {
  }

  lemma LoadDir(v: Node, tail: Bytes, kids: seq<Node>)
    requires Storable(v) && v.dir && LoadKids(SaveFrom(v, 0, tail), |v.kids|) == Some((kids, tail))
    ensures LoadBody(Fields(v), Body(v, tail)) == Some((Stored(v).(kids := kids), tail))
  {
    NameFirst(v, Put(|v.kids|, 8, SaveFrom(v, 0, tail)));
    GetPut(|v.kids|, 8, SaveFrom(v, 0, tail));
    Small(|v.kids|, Pow(8));
  }

  lemma LoadFile(v: Node, tail: Bytes)
    requires Storable(v) && !v.dir
    ensures LoadBody(Fields(v), Body(v, tail)) == Some((Stored(v), tail))
  {
    NameFirst(v, v.data + tail);
    assert (v.data + tail)[..|v.data|] == v.data && (v.data + tail)[|v.data|..] == tail;
  }

  lemma {:induction false} PutAppend(n: nat, w: nat, tail: Bytes)
    ensures Put(n, w, tail) == Put(n, w, []) + tail
    decreases w
  {
    if w > 0 {
      PutAppend(n / 256, w - 1, tail);
    }
  }

  lemma LowByte(r: nat, q: nat)
    requires r < 256
    ensures (r + 256 * q) % 256 == r && (r + 256 * q) / 256 == q
  {
  }

  lemma {:induction false} PutMod(n: nat, w: nat, tail: Bytes)
    ensures Pow(w) > 0 && Put(n % Pow(w), w, tail) == Put(n, w, tail)
    decreases w
  {
    if w > 0 {
      PutMod(n / 256, w - 1, tail);
      ModSplit(n, Pow(w - 1));
      LowByte(n % 256, n / 256 % Pow(w - 1));
    }
  }

  lemma PutLow(n: nat)
    ensures Put(n % LINKS, 4, []) == Put(n, 4, [])
  {
    PutMod(n, 4, []);
    assert Pow(4) == LINKS by { assert Pow(2) == 65536; }
  }

  lemma {:induction false} PutAllAppend(ns: seq<nat>, ws: seq<nat>, tail: Bytes)
    requires |ns| == |ws|
    ensures PutAll(ns, ws, tail) == PutAll(ns, ws, []) + tail
    decreases |ns|
  {
    if ns != [] {
      PutAllAppend(ns[1..], ws[1..], tail);
      PutAppend(ns[0], ws[0], PutAll(ns[1..], ws[1..], tail));
      PutAppend(ns[0], ws[0], PutAll(ns[1..], ws[1..], []));
    }
  }

  function Header(v: Node): Bytes { PutAll(Fields(v), WIDTHS, []) }

  // What is saved does not depend on what follows.
  lemma {:induction false} SaveAppend(v: Node, tail: Bytes)
    ensures Save(v, tail) == Save(v, []) + tail && Save(v, []) == Header(v) + Body(v, [])
    decreases v, |v.kids| + 1
  {
    if v.dir {
      SaveFromAppend(v, 0, tail);
      PutAppend(|v.kids|, 8, SaveFrom(v, 0, tail));
      PutAppend(|v.kids|, 8, SaveFrom(v, 0, []));
    }
    assert Body(v, tail) == Body(v, []) + tail;
    PutAllAppend(Fields(v), WIDTHS, Body(v, tail));
    PutAllAppend(Fields(v), WIDTHS, Body(v, []));
  }

  lemma {:induction false} SaveFromAppend(v: Node, i: nat, tail: Bytes)
    requires i <= |v.kids|
    ensures SaveFrom(v, i, tail) == SaveFrom(v, i, []) + tail
    decreases v, |v.kids| - i
  {
    if i < |v.kids| {
      SaveFromAppend(v, i + 1, tail);
      SaveAppend(v.kids[i], SaveFrom(v, i + 1, tail));
      SaveAppend(v.kids[i], SaveFrom(v, i + 1, []));
    }
  }

  /** Loading undoes saving, for every tree and any bytes after it, and takes exactly its bytes. */
  lemma {:induction false} LoadSave(v: Node, tail: Bytes)
    requires Storable(v)
    ensures Load(Save(v, tail)) == Some((Stored(v), tail))
    decreases v, |v.kids| + 1
  {
    assert Save(v, tail) == PutAll(Fields(v), WIDTHS, Body(v, tail));
    GetPutAll(Fields(v), WIDTHS, Body(v, tail));
    if v.dir {
      LoadSaveFrom(v, 0, tail);
      assert Stored(v).kids[0..] == Stored(v).kids;
      LoadDir(v, tail, Stored(v).kids);
    } else {
      LoadFile(v, tail);
    }
  }

  lemma {:induction false} LoadSaveFrom(v: Node, i: nat, tail: Bytes)
    requires Storable(v) && i <= |v.kids|
    ensures LoadKids(SaveFrom(v, i, tail), |v.kids| - i) == Some((Stored(v).kids[i..], tail))
    decreases v, |v.kids| - i
  {
    if i < |v.kids| {
      LoadSave(v.kids[i], SaveFrom(v, i + 1, tail));
      LoadSaveFrom(v, i + 1, tail);
      assert Stored(v).kids[i..] == [Stored(v.kids[i])] + Stored(v).kids[i + 1..];
    }
  }

  /** The rebuilt tree is the saved one exactly when every link count fits the int it is saved in. */
  lemma {:induction false} StoredExactly(v: Node)
    ensures Stored(v) == Unplaced(v) <==> LinksFit(v)
    decreases v
  {
    forall i | 0 <= i < |v.kids| ensures Stored(v.kids[i]) == Unplaced(v.kids[i]) <==> LinksFit(v.kids[i]) {
      StoredExactly(v.kids[i]);
    }
    assert forall i :: 0 <= i < |v.kids| ==> Stored(v).kids[i] == Stored(v.kids[i]) && Unplaced(v).kids[i] == Unplaced(v.kids[i]);
    if v.meta.enlaces < LINKS {
      Small(v.meta.enlaces, LINKS);
    }
    if LinksFit(v) {
      assert Stored(v).kids == Unplaced(v).kids;
    }
  }

  // ---------------------------------------------------------------- persistence over runs

  // fs.raiz and the contents of the disk file, if there is one.
  datatype Fs = Fs(raiz: Node, disk: Option<Bytes>)

  // create and mkdir save before they add the child; the others save what they did.
  function Do(fs: Fs, op: Op): (Fs, int)
    requires Allowed(fs.raiz, op)
  {
    var (w, r) := Apply(fs.raiz, op);
    if r < 0 then (fs, r) else (Fs(w, Some(Save(if op.Make? then fs.raiz else w, []))), r)
  }

  function Unmount(fs: Fs): Option<Bytes> { Some(Save(fs.raiz, [])) }

  // cargar_fs; `blank` is the root that crear_inode makes.
  function Mount(disk: Option<Bytes>, blank: Node): Option<Node> {
    match disk
    case None => Some(blank)
    case Some(bs) => match Load(bs) case None => None case Some((v, _)) => Some(v)
  }

  // crear_inode sets the link count to 1.
  ghost predicate OneLink(op: Op) { op.Make? ==> op.meta.enlaces == 1 }

  ghost predicate Runs(fs: Fs, ops: seq<Op>, fs1: Fs)
    decreases |ops|
  {
    if ops == [] then fs1 == fs
    else Allowed(fs.raiz, ops[0]) && OneLink(ops[0]) && Runs(Do(fs, ops[0]).0, ops[1..], fs1)
  }

  lemma {:induction false} SetLinks(v: Node, p: Path, n: Node)
    requires LinksFit(v) && LinksFit(n)
    ensures LinksFit(Set(v, p, n))
    decreases |p|
  {
    if p != [] && Index(v.kids, p[0]) < |v.kids| {
      SetLinks(v.kids[Index(v.kids, p[0])], p[1..], n);
    }
  }

  lemma {:induction false} BuscarLinks(v: Node, p: Path)
    requires LinksFit(v) && Buscar(v, p).Some?
    ensures LinksFit(Buscar(v, p).value)
    decreases |p|
  {
    if p != [] && v.dir {
      BuscarLinks(v.kids[Index(v.kids, p[0])], p[1..]);
    }
  }

  lemma ApplyLinks(v: Node, op: Op)
    requires LinksFit(v) && Allowed(v, op) && OneLink(op)
    ensures LinksFit(Apply(v, op).0)
  {
    var w := Apply(v, op).0;
    if w != v {
      match op
      case Make(path, _, _, _, now) =>
        BuscarLinks(v, Parent(path));
        var d := Buscar(v, Parent(path)).value;
        SetLinks(v, Parent(path), Touch(d.(kids := d.kids + [NewNode(op)]), now));
      case Remove(path, now) => EliminarLinks(v, path, now);
      case RemoveDir(path, now) => EliminarLinks(v, path, now);
      case WriteAt(path, buf, offset, junk, now) =>
        BuscarLinks(v, path);
        var n := Buscar(v, path).value;
        SetLinks(v, Stop(v, path), n.(data := Overlay(n.data + junk, offset, buf), meta := n.meta.(modificacion := now, cambio := now)));
      case Resize(path, size, now) =>
        BuscarLinks(v, path);
        var n := Buscar(v, path).value;
        var data := if size <= |n.data| then n.data[..size] else n.data + Zeros(size - |n.data|);
        SetLinks(v, Stop(v, path), n.(data := data, meta := n.meta.(modificacion := now, cambio := now)));
    }
  }

  lemma EliminarLinks(v: Node, path: Path, now: nat)
    requires LinksFit(v)
    ensures LinksFit(Eliminar(v, path, now))
  {
    if path != [] && BuscarPadre(v, path).Some? {
      BuscarLinks(v, Parent(path));
      var d := BuscarPadre(v, path).value;
      var i := Index(d.kids, Last(path));
      if i < |d.kids| {
        var k := RemoveAt(d.kids, i);
        assert forall j :: 0 <= j < |k| ==> k[j] == d.kids[if j < i then j else j + 1];
        SetLinks(v, Parent(path), Touch(d.(kids := k), now));
      }
    }
  }

  lemma {:induction false} RunsKeep(fs: Fs, ops: seq<Op>, fs1: Fs)
    requires TreeOk(fs.raiz) && fs.raiz.dir && LinksFit(fs.raiz) && Runs(fs, ops, fs1)
    ensures TreeOk(fs1.raiz) && fs1.raiz.dir && LinksFit(fs1.raiz)
    decreases |ops|
  {
    if ops != [] {
      ApplyKeeps(fs.raiz, ops[0]);
      ApplyLinks(fs.raiz, ops[0]);
      RunsKeep(Do(fs, ops[0]).0, ops[1..], fs1);
    }
  }

  /** Unmounting and mounting again restores the exact tree, after any run of operations on a
      tree that started as one. */
  lemma MountRestores(fs: Fs, ops: seq<Op>, fs1: Fs, blank: Node)
    requires TreeOk(fs.raiz) && fs.raiz.dir && LinksFit(fs.raiz) && Runs(fs, ops, fs1) && Storable(fs1.raiz)
    ensures Mount(Unmount(fs1), blank) == Some(Unplaced(fs1.raiz))
  {
    RunsKeep(fs, ops, fs1);
    LoadSave(fs1.raiz, []);
    StoredExactly(fs1.raiz);
  }

  /** Right after a successful create or mkdir the image is the tree before it: mounting that
      image restores a tree without the new path. */
  lemma ImageLagsBehind(fs: Fs, op: Op, fs1: Fs, r: int, blank: Node)
    requires TreeOk(fs.raiz) && LinksFit(fs.raiz) && Storable(fs.raiz) && op.Make?
    requires Proper(op.path) && (fs1, r) == Do(fs, op) && r >= 0
    ensures Mount(fs1.disk, blank) == Some(Unplaced(fs.raiz))
    ensures Find(Unplaced(fs.raiz), op.path).None? && Find(fs1.raiz, op.path).Some?
  {
    LoadSave(fs.raiz, []);
    StoredExactly(fs.raiz);
    InsertAddsOne(fs.raiz, op.path, NewNode(op), op.now, fs1.raiz, r, op.path);
    FindUnplaced(fs.raiz, op.path);
  }

  lemma {:induction false} FindUnplaced(v: Node, p: Path)
    ensures Find(Unplaced(v), p).Some? <==> Find(v, p).Some?
    decreases |p|
  {
    if p != [] {
      assert forall j :: 0 <= j < |v.kids| ==> Unplaced(v).kids[j] == Unplaced(v.kids[j]);
      IndexUnplaced(v.kids, Unplaced(v).kids, p[0]);
      var i := Index(v.kids, p[0]);
      if i < |v.kids| {
        FindUnplaced(v.kids[i], p[1..]);
      }
    }
  }

  lemma {:induction false} IndexUnplaced(a: seq<Node>, b: seq<Node>, name: string)
    requires |a| == |b| && forall i :: 0 <= i < |a| ==> a[i].name == b[i].name
    ensures Index(a, name) == Index(b, name)
    decreases |a|
  {
    if a != [] {
      IndexUnplaced(a[1..], b[1..], name);
    }
  }
}
