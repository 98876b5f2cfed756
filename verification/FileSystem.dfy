/**
 The filesystem calls that the patch applier makes, over a tree of named nodes.

 Any call can fail: `faulty` decides, call by call, which ones do. A failed call changes
 nothing, except that a failed write leaves whatever `written` says in the opened file.
 */
module FileSystems {
  import opened Wrappers

  type Path = seq<string>
  type Bytes = seq<bv8>

  /** `Other` stands for symbolic links and special files. */
  datatype Node = File(data: Bytes) | Directory | Other

  type Tree = map<Path, Node>

  datatype Errno = ENOENT | OtherErrno

  function Parent(p: Path): Path {
    if p == [] then p else p[..|p| - 1]
  }

  predicate ParentIsDirectory(t: Tree, p: Path) {
    p != [] && Parent(p) in t && t[Parent(p)] == Directory
  }

  predicate Holds(t: Tree, p: Path, data: Bytes) {
    p in t && t[p] == File(data)
  }

  /** The two trees agree about one path. */
  ghost predicate Same(t: Tree, u: Tree, p: Path) {
    && (p in t <==> p in u)
    && (p in t ==> t[p] == u[p])
  }

  /** The root is a directory, and every other node hangs below a directory that exists. */
  ghost predicate Closed(t: Tree) {
    forall p :: p in t ==> if p == [] then t[p] == Directory else ParentIsDirectory(t, p)
  }

  predicate IsEmptyDirectory(t: Tree, d: Path) {
    d in t && t[d] == Directory && forall q | q in t :: q == [] || Parent(q) != d
  }

  class FileSystem {
    var tree: Tree
    var calls: nat
    /** How many calls had been made when a directory or file was last made, written or linked. */
    ghost var built: nat
    /** The numbers of the calls that made a directory or opened a file, and of those that moved or linked one. */
    ghost var created: seq<nat>
    ghost var moved: seq<nat>
    const faulty: nat -> bool
    const written: nat -> Bytes

    constructor (tree: Tree, faulty: nat -> bool, written: nat -> Bytes)
      ensures Valid() && this.tree == tree && this.calls == 0
    {
      this.tree := tree;
      this.calls, this.built := 0, 0;
      this.created, this.moved := [], [];
      this.faulty := faulty;
      this.written := written;
    }

    ghost predicate Valid()
      reads this
    {
      built <= calls && forall i :: 0 <= i < |created| ==> created[i] < built
    }

    /** No call numbered from `start` to `end` was made to fail. */
    ghost predicate Quiet(start: nat, end: nat) {
      forall k: nat :: start <= k < end ==> !faulty(k)
    }

    /** Reads the type of a node, like `lstat`. */
    method Lstat(p: Path) returns (r: Result<Node, Errno>)
      modifies this`calls
      ensures calls == old(calls) + 1
      ensures r.Ok? <==> !faulty(old(calls)) && p in tree
      ensures r.Ok? ==> r.value == tree[p]
      ensures r == Err(ENOENT) <==> !faulty(old(calls)) && p !in tree
    {
      r := if faulty(calls) then Err(OtherErrno) else if p in tree then Ok(tree[p]) else Err(ENOENT);
      calls := calls + 1;
    }

    method ReadFile(p: Path) returns (r: Result<Bytes, Errno>)
      modifies this`calls
      ensures calls == old(calls) + 1
      ensures r.Ok? <==> !faulty(old(calls)) && p in tree && tree[p].File?
      ensures r.Ok? ==> Holds(tree, p, r.value)
    {
      r := if !faulty(calls) && p in tree && tree[p].File? then Ok(tree[p].data) else Err(OtherErrno);
      calls := calls + 1;
    }

    method Mkdir(p: Path) returns (ok: bool)
      modifies this`tree, this`calls, this`built, this`created
      ensures calls == built == old(calls) + 1
      ensures created == old(created) + [old(calls)]
      ensures ok <==> !faulty(old(calls)) && p !in old(tree) && ParentIsDirectory(old(tree), p)
      ensures tree == if ok then old(tree)[p := Directory] else old(tree)
    {
      ok := !faulty(calls) && p !in tree && ParentIsDirectory(tree, p);
      tree := if ok then tree[p := Directory] else tree;
      created := created + [calls];
      calls := calls + 1;
      built := calls;
    }

    method Rmdir(p: Path) returns (error: Option<Errno>)
      modifies this`tree, this`calls
      ensures calls == old(calls) + 1
      ensures error.None? <==> !faulty(old(calls)) && IsEmptyDirectory(old(tree), p)
      ensures error == Some(ENOENT) <==> !faulty(old(calls)) && p !in old(tree)
      ensures tree == if error.None? then old(tree) - {p} else old(tree)
    {
      if faulty(calls) {
        error := Some(OtherErrno);
      } else if p !in tree {
        error := Some(ENOENT);
      } else if IsEmptyDirectory(tree, p) {
        error := None;
        tree := tree - {p};
      } else {
        error := Some(OtherErrno);
      }
      calls := calls + 1;
    }

    /** Opens a new file for writing, like `open` with the flags "wx": an existing name is refused. */
    method OpenNew(p: Path) returns (ok: bool)
      modifies this`tree, this`calls, this`built, this`created
      ensures calls == built == old(calls) + 1
      ensures created == old(created) + [old(calls)]
      ensures ok <==> !faulty(old(calls)) && p !in old(tree) && ParentIsDirectory(old(tree), p)
      ensures tree == if ok then old(tree)[p := File([])] else old(tree)
    {
      ok := !faulty(calls) && p !in tree && ParentIsDirectory(tree, p);
      tree := if ok then tree[p := File([])] else tree;
      created := created + [calls];
      calls := calls + 1;
      built := calls;
    }

    /** Writes through the handle of a file that `OpenNew` opened. */
    method WriteFile(p: Path, data: Bytes) returns (ok: bool)
      requires p in tree && tree[p].File?
      modifies this`tree, this`calls, this`built
      ensures calls == built == old(calls) + 1
      ensures ok <==> !faulty(old(calls))
      ensures tree == old(tree)[p := File(if ok then data else written(old(calls)))]
    {
      ok := !faulty(calls);
      tree := tree[p := File(if ok then data else written(calls))];
      calls := calls + 1;
      built := calls;
    }

    /** `chmod`, `sync` or `close` on an open handle. */
    method HandleCall() returns (ok: bool)
      modifies this`calls, this`built
      ensures calls == built == old(calls) + 1
      ensures ok <==> !faulty(old(calls))
    {
      ok := !faulty(calls);
      calls := calls + 1;
      built := calls;
    }

    /** Hard-links a file under a second name, which must be free. */
    method Link(source: Path, target: Path) returns (ok: bool)
      modifies this`tree, this`calls, this`built, this`moved
      ensures calls == built == old(calls) + 1
      ensures moved == old(moved) + [old(calls)]
      ensures ok <==> && !faulty(old(calls)) && source in old(tree) && old(tree)[source].File?
                      && target !in old(tree) && ParentIsDirectory(old(tree), target)
      ensures tree == if ok then old(tree)[target := old(tree)[source]] else old(tree)
    {
      ok := && !faulty(calls) && source in tree && tree[source].File?
            && target !in tree && ParentIsDirectory(tree, target);
      tree := if ok then tree[target := tree[source]] else tree;
      moved := moved + [calls];
      calls := calls + 1;
      built := calls;
    }

    /** Moves a file, replacing a file that has the new name. Moving a directory is not modelled. */
    method Rename(source: Path, target: Path) returns (ok: bool)
      requires source in tree ==> tree[source] != Directory
      modifies this`tree, this`calls, this`moved
      ensures calls == old(calls) + 1
      ensures moved == old(moved) + [old(calls)]
      ensures ok <==> && !faulty(old(calls)) && source in old(tree) && ParentIsDirectory(old(tree), target)
                      && !(target in old(tree) && old(tree)[target] == Directory)
      ensures tree == if ok then (old(tree) - {source})[target := old(tree)[source]] else old(tree)
    {
      ok := && !faulty(calls) && source in tree && ParentIsDirectory(tree, target)
            && !(target in tree && tree[target] == Directory);
      tree := if ok then (tree - {source})[target := tree[source]] else tree;
      moved := moved + [calls];
      calls := calls + 1;
    }

    method Unlink(p: Path) returns (ok: bool)
      modifies this`tree, this`calls
      ensures calls == old(calls) + 1
      ensures ok <==> !faulty(old(calls)) && p in old(tree) && old(tree)[p] != Directory
      ensures tree == if ok then old(tree) - {p} else old(tree)
    {
      ok := !faulty(calls) && p in tree && tree[p] != Directory;
      tree := if ok then tree - {p} else tree;
      calls := calls + 1;
    }
  }
}
