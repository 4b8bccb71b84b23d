/** Paths, trees, commits and the shared index.
    A hash (git object id or SHA-256) is modelled by the value that is hashed: an injective digest
    carries exactly that much. A commit is therefore equal to another one just when parents, tree and
    message are equal, and a blob id is its content. */
module Git {
  import opened Order
  import opened Results

  // ---------- paths ----------

  /** A repository-relative path with forward slashes. */
  type Path = string

  predicate CharLt(a: char, b: char) { a < b }

  /** compareAscii / compareCodeUnits on paths. */
  predicate PathLt(p: Path, q: Path) { Lex(CharLt, p, q) }

  predicate PathLe(p: Path, q: Path) { p == q || PathLt(p, q) }

  /** `p` lies strictly below the directory named `dir`. */
  predicate Under(p: Path, dir: Path) {
    |dir| < |p| && p[..|dir|] == dir && p[|dir|] == '/'
  }

  /** One of the two paths would have to be both a file and a directory. */
  predicate Clash(p: Path, q: Path) { Under(p, q) || Under(q, p) }

  lemma PathOrder()
    ensures forall p: Path :: !PathLt(p, p)
    ensures forall p: Path, q: Path :: p == q || PathLt(p, q) || PathLt(q, p)
    ensures forall p: Path, q: Path, r: Path :: PathLt(p, q) && PathLt(q, r) ==> PathLt(p, r)
  {
    LexStrictTotal(CharLt);
  }

  lemma PathAntisymmetric(p: Path, q: Path)
    requires PathLe(p, q) && PathLe(q, p)
    ensures p == q
  {
    PathOrder();
    assert PathLt(p, q) && PathLt(q, p) ==> PathLt(p, p);
  }

  lemma PathLeTransitive(p: Path, q: Path, r: Path)
    requires PathLe(p, q) && PathLe(q, r)
    ensures PathLe(p, r)
  {
    PathOrder();
    assert PathLt(p, q) && PathLt(q, r) ==> PathLt(p, r);
  }

  lemma PathLeTotal(p: Path, q: Path)
    ensures PathLe(p, q) || PathLe(q, p)
    ensures PathLt(p, q) ==> p != q && !PathLt(q, p)
  {
    PathOrder();
    assert PathLt(p, q) || PathLt(q, p) || p == q;
    assert PathLt(p, q) && PathLt(q, p) ==> PathLt(p, p);
  }

  /** A directory sorts before everything below it. */
  lemma UnderIsAfter(p: Path, dir: Path)
    requires Under(p, dir)
    ensures PathLt(dir, p) && !PathLt(p, dir) && p != dir
  {
    LexPrefix(CharLt, dir, p);
    PathOrder();
    assert PathLt(dir, p) && !PathLt(dir, dir);
  }

  // ---------- trees ----------

  datatype Mode = Regular | Executable | Symlink | Gitlink

  /** A tracked entry: mode and object id. */
  datatype Entry = Entry(mode: Mode, oid: string)

  type Files = map<Path, Entry>

  ghost predicate ClashFree<V>(t: map<Path, V>) {
    forall p, q | p in t && q in t :: !Under(p, q)
  }

  /** A git tree listed with `ls-tree -r`: no path is a directory prefix of another. */
  type Tree = t: Files | ClashFree(t) witness map[]

  function Get<V>(m: map<Path, V>, p: Path): Option<V> {
    if p in m then Some(m[p]) else None
  }

  /** Replace `p` by `v`, absence included. */
  function Put<V>(m: map<Path, V>, p: Path, v: Option<V>): (r: map<Path, V>)
    ensures Get(r, p) == v && forall q | q != p :: Get(r, q) == Get(m, q)
  {
    if v.Some? then m[p := v.value] else m - {p}
  }

  /** Is some listed path below `dir`? */
  predicate HasBelow<V>(m: map<Path, V>, dir: Path) {
    exists q | q in m :: Under(q, dir)
  }

  lemma SameFiles<V>(a: map<Path, V>, b: map<Path, V>)
    requires forall p :: Get(a, p) == Get(b, p)
    ensures a == b
  {
    forall p ensures (p in a <==> p in b) && (p in a ==> a[p] == b[p]) {
      assert Get(a, p) == Get(b, p);
    }
  }

  datatype ObjectType = FileType | SymlinkType | GitlinkType

  function TypeOf(m: Mode): ObjectType {
    match m
    case Regular => FileType
    case Executable => FileType
    case Symlink => SymlinkType
    case Gitlink => GitlinkType
  }

  /** Status letters of a raw, rename-free `diff-tree`: T is a change of object type. */
  datatype Status = A | D | M | T

  function DiffStatus(before: Option<Entry>, after: Option<Entry>): Option<Status> {
    if before == after then None
    else if before.None? then Some(A)
    else if after.None? then Some(D)
    else if TypeOf(before.value.mode) != TypeOf(after.value.mode) then Some(T)
    else Some(M)
  }

  datatype DiffRow = DiffRow(path: Path, status: Status, after: Option<Entry>)

  // ---------- commits ----------

  datatype Commit = Commit(parents: seq<Commit>, tree: Tree, message: string)

  predicate IsAncestor(a: Commit, d: Commit)
    decreases d
  {
    a == d || exists i | 0 <= i < |d.parents| :: IsAncestor(a, d.parents[i])
  }

  lemma {:induction false} AncestorTransitive(a: Commit, b: Commit, c: Commit)
    requires IsAncestor(a, b) && IsAncestor(b, c)
    ensures IsAncestor(a, c)
    decreases c
  {
    if b != c {
      var i :| 0 <= i < |c.parents| && IsAncestor(b, c.parents[i]);
      AncestorTransitive(a, b, c.parents[i]);
    }
  }

  lemma ParentIsAncestor(c: Commit, i: nat)
    requires i < |c.parents|
    ensures IsAncestor(c.parents[i], c)
  {}

  /** No commit is in the history of one of its parents. */
  lemma {:induction false} NoCycle(c: Commit, parent: Commit)
    requires parent in c.parents
    ensures !IsAncestor(c, parent)
    decreases parent
  {
    if IsAncestor(c, parent) {
      assert IsAncestor(c, c);
      var i :| 0 <= i < |parent.parents| && IsAncestor(c, parent.parents[i]);
      var k :| 0 <= k < |c.parents| && c.parents[k] == parent;
      ParentIsAncestor(c, k);
      AncestorTransitive(parent, c, parent.parents[i]);
      NoCycle(parent, parent.parents[i]);
    }
  }

  /** Two commits in each other's history are the same commit. */
  lemma AncestorAntisymmetric(a: Commit, b: Commit)
    requires IsAncestor(a, b) && IsAncestor(b, a)
    ensures a == b
  {
    if a != b {
      var i :| 0 <= i < |b.parents| && IsAncestor(a, b.parents[i]);
      AncestorTransitive(b, a, b.parents[i]);
      NoCycle(b, b.parents[i]);
    }
  }

  // ---------- the shared index ----------

  /** An index line: a stage-0 entry, or a path with conflict stages. */
  datatype Staged = Staged(entry: Entry) | Conflicted

  type Index = map<Path, Staged>

  /** One `update-index --index-info` record. Adding an entry replaces every entry it clashes with. */
  function IndexInfo(ix: Index, p: Path, target: Option<Entry>): Index {
    if target.None? then ix - {p}
    else (map q | q in ix && !Clash(q, p) :: ix[q])[p := Staged(target.value)]
  }
}
