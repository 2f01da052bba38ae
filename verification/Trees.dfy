/** A container's file tree and the operations the replica runs on it.  Keys are
    logical paths; the sections themselves always exist and are not in the map. */
module Trees {
  import opened Records
  import opened Paths

  /** A stamp stands for the native identity and change time of an entry: two readings
      with one stamp saw the same contents. */
  datatype Node = Folder(stamp: nat) | Doc(bytes: Bytes, stamp: nat)

  type Tree = map<Path, Node>

  /** Everything lies in folders that exist. */
  predicate TreeOk(t: Tree) {
    forall p, a | p in t && a in Ancestors(p) :: a in t && t[a].Folder?
  }

  predicate IsDoc(t: Tree, p: Path) {
    p in t && t[p].Doc?
  }

  /** No folder the path needs is a file: only then can the path be looked up at all. */
  predicate Reachable(t: Tree, p: Path) {
    forall a | a in Ancestors(p) :: !IsDoc(t, a)
  }

  predicate HasChildren(t: Tree, p: Path) {
    exists q | q in t :: Below(q, p)
  }

  /** The tree with every missing folder in `folders` added. */
  function AddFolders(t: Tree, folders: set<Path>, stamp: nat): Tree {
    t + map a | a in folders && a !in t :: Folder(stamp)
  }

  function MakeFolder(t: Tree, p: Path, stamp: nat): Option<Tree> {
    if !Reachable(t, p) || IsDoc(t, p) then None else Some(AddFolders(t, Ancestors(p) + {p}, stamp))
  }

  /** Puts a file where there is none or another file. */
  function Install(t: Tree, p: Path, bytes: Bytes, stamp: nat): Option<Tree> {
    if !Reachable(t, p) || (p in t && t[p].Folder?) then None
    else Some(AddFolders(t, Ancestors(p), stamp)[p := Doc(bytes, stamp)])
  }

  /** Deletes a file or an empty folder; a path without its folder counts as deleted. */
  function Remove(t: Tree, p: Path): Option<Tree> {
    if !Reachable(t, p) || (p in t && t[p].Folder? && HasChildren(t, p)) then None else Some(t - {p})
  }

  lemma AncestorsChain(p: Path, a: Path, b: Path)
    requires a in Ancestors(p) && b in Ancestors(a)
    ensures b in Ancestors(p)
  {
    AncestorsAreTheFoldersAbove(p, a);
    AncestorsAreTheFoldersAbove(a, b);
    BelowTransitive(p, a, b);
    AncestorsAreTheFoldersAbove(p, b);
  }

  lemma NotItsOwnAncestor(p: Path)
    ensures p !in Ancestors(p)
  {
    AncestorsAreTheFoldersAbove(p, p);
  }

  lemma MakeFolderOk(t: Tree, p: Path, stamp: nat)
    requires TreeOk(t) && MakeFolder(t, p, stamp).Some?
    ensures TreeOk(MakeFolder(t, p, stamp).value)
  {
    var t' := MakeFolder(t, p, stamp).value;
    forall q, a | q in t' && a in Ancestors(q) ensures a in t' && t'[a].Folder? {
      if q !in t && q != p {
        AncestorsChain(p, q, a);
      }
    }
  }

  lemma InstallOk(t: Tree, p: Path, bytes: Bytes, stamp: nat)
    requires TreeOk(t) && Install(t, p, bytes, stamp).Some?
    ensures TreeOk(Install(t, p, bytes, stamp).value)
  {
    var t' := Install(t, p, bytes, stamp).value;
    NotItsOwnAncestor(p);
    forall q, a | q in t' && a in Ancestors(q) ensures a in t' && t'[a].Folder? {
      if q !in t && q != p {
        AncestorsChain(p, q, a);
      }
    }
  }

  lemma RemoveOk(t: Tree, p: Path)
    requires TreeOk(t) && Remove(t, p).Some?
    ensures TreeOk(Remove(t, p).value)
  {
    var t' := Remove(t, p).value;
    forall q, a | q in t' && a in Ancestors(q) ensures a in t' && t'[a].Folder? {
      AncestorsAreTheFoldersAbove(q, a);
      if a == p {
        assert HasChildren(t, p);
      }
    }
  }
}
