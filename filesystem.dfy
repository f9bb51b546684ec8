/**
 * The abstract filesystem the command-line tool reads and writes: a map from
 * absolute paths (sequences of names) to directories and files. A file holds
 * a content and a permission mode. The primitives are the `fs` calls
 * bin/cli.js makes (recursive `mkdirSync`, `writeFileSync`, `copyFileSync`,
 * `unlinkSync`, `chmodSync`), each stated as a function on maps and, on the
 * `FileSystem` class, as a method that changes the map in place and keeps it
 * shaped like a tree.
 */
module Fs {
  import opened Common
  import Strings
  import Hooks
  import Projects

  type Path = seq<string>

  /**
   * What a file holds. Every file the tool did not write is `Text`; the
   * documents it generates, and the fixed texts it writes (whose letters
   * `Setup` spells out), are named by what they are generated from.
   */
  datatype Content =
    | Text(text: string)
    | SettingsDoc(settings: Hooks.Settings)                         // `.claude/settings.json`
    | AgentContext(version: string)                                 // `CLAUDE.md`, stamped with the package version
    | PlanTemplate                                                  // `plans/_TEMPLATE.md`
    | WorkspaceStub(project: string)                                // `workspace.md` when no template is at hand
    | ConstitutionStub(project: string)                             // `constitution.md` when no template is at hand
    | Gitignore                                                     // `orchestrator/.gitignore`
    | ServiceProfiles(project: string, repos: seq<Projects.RepoInfo>) // `plans/service-profiles.md`

  datatype Entry = Dir | File(content: Content, mode: nat)

  type FileMap = map<Path, Entry>

  /** The mode of a file created by `writeFileSync` under the usual umask 022 (0o644). */
  const DefaultMode: nat := 420
  /** 0o755, the mode hook scripts are given. */
  const ExecMode: nat := 493

  function Get(fs: FileMap, p: Path): Option<Entry> {
    if p in fs then Some(fs[p]) else None
  }

  predicate IsDir(fs: FileMap, p: Path) {
    p in fs && fs[p].Dir?
  }

  predicate IsFile(fs: FileMap, p: Path) {
    p in fs && fs[p].File?
  }

  function Parent(p: Path): Path
    requires p != []
  {
    p[..|p| - 1]
  }

  /** `q` is `p` or one of its ancestors. */
  predicate IsPrefix(q: Path, p: Path) {
    |q| <= |p| && p[..|q|] == q
  }

  function Prefixes(p: Path): (s: set<Path>)
    ensures forall q :: q in s <==> IsPrefix(q, p)
  {
    set i | 0 <= i <= |p| :: p[..i]
  }

  /** The root is a directory and every other entry sits in a directory. */
  predicate TreeShaped(fs: FileMap) {
    IsDir(fs, []) && forall p :: p in fs && p != [] ==> IsDir(fs, Parent(p))
  }

  /** In a tree every ancestor of an entry is a directory. */
  lemma {:induction false} AncestorsAreDirs(fs: FileMap, p: Path, i: nat)
    requires TreeShaped(fs) && p in fs && i < |p|
    ensures IsDir(fs, p[..i])
    decreases |p|
  {
    var up := Parent(p);
    if i < |up| {
      AncestorsAreDirs(fs, up, i);
      assert up[..i] == p[..i];
    }
  }

  /** In a tree every prefix of an entry is an entry. */
  lemma PrefixPresent(fs: FileMap, p: Path, q: Path)
    requires TreeShaped(fs) && p in fs && IsPrefix(q, p)
    ensures q in fs
  {
    if |q| < |p| {
      AncestorsAreDirs(fs, p, |q|);
    } else {
      assert q == p;
    }
  }

  /** The mode `writeFileSync` leaves: an existing file keeps its own. */
  function WrittenMode(fs: FileMap, p: Path): nat {
    if IsFile(fs, p) then fs[p].mode else DefaultMode
  }

  /** `fs.writeFileSync(p, c)`. */
  function Write(fs: FileMap, p: Path, c: Content): (r: FileMap)
    ensures forall q :: Get(r, q) == if q == p then Some(File(c, WrittenMode(fs, p))) else Get(fs, q)
  {
    fs[p := File(c, WrittenMode(fs, p))]
  }

  /** `fs.copyFileSync(from, p)` from the package tree: the content and the mode of the source. */
  function CopyEntry(fs: FileMap, p: Path, source: Entry): (r: FileMap)
    requires source.File?
    ensures forall q :: Get(r, q) == if q == p then Some(source) else Get(fs, q)
  {
    fs[p := source]
  }

  /** `fs.mkdirSync(p, { recursive: true })`: every missing ancestor and `p` itself become directories. */
  function MkdirAll(fs: FileMap, p: Path): (r: FileMap)
    ensures forall q :: Get(r, q) == if q in fs then Some(fs[q]) else if IsPrefix(q, p) then Some(Dir) else None
  {
    map q | q in fs.Keys + Prefixes(p) :: if q in fs then fs[q] else Dir
  }

  /** `q` is `dir + [n]` for a name `n` of `names`. */
  predicate InDir(q: Path, dir: Path, names: set<string>) {
    |q| == |dir| + 1 && q[..|dir|] == dir && q[|dir|] in names
  }

  /** Each path `dir + [n]`, `n` in `names`, removed. */
  function RemoveNames(fs: FileMap, dir: Path, names: set<string>): (r: FileMap)
    ensures forall q :: Get(r, q) == if InDir(q, dir, names) then None else Get(fs, q)
  {
    map q | q in fs && !InDir(q, dir, names) :: fs[q]
  }

  /** Names of the files directly in `dir` of `tree` whose name ends with `suffix`. */
  function FilesEndingWith(tree: FileMap, dir: Path, suffix: string): (names: set<string>)
    ensures forall n :: n in names <==> IsFile(tree, dir + [n]) && Strings.EndsWith(n, suffix)
  {
    var names := set q | q in tree.Keys && ChildFile(tree, dir, suffix, q) :: q[|dir|];
    FilesEndingWithExactly(tree, dir, suffix, names);
    names
  }

  predicate ChildFile(tree: FileMap, dir: Path, suffix: string, q: Path) {
    |q| == |dir| + 1 && q[..|dir|] == dir && IsFile(tree, q) && Strings.EndsWith(q[|dir|], suffix)
  }

  lemma FilesEndingWithExactly(tree: FileMap, dir: Path, suffix: string, names: set<string>)
    requires names == set q | q in tree.Keys && ChildFile(tree, dir, suffix, q) :: q[|dir|]
    ensures forall n :: n in names <==> IsFile(tree, dir + [n]) && Strings.EndsWith(n, suffix)
  {
    forall n
      ensures n in names <==> IsFile(tree, dir + [n]) && Strings.EndsWith(n, suffix)
    {
      var q := dir + [n];
      assert q[..|dir|] == dir && q[|dir|] == n;
      if n in names {
        var q' :| q' in tree.Keys && ChildFile(tree, dir, suffix, q') && q'[|dir|] == n;
        assert q' == dir + [n];
      }
    }
  }

  /**
   * The files `src + [n]` of the package tree, `n` in `names`, copied to
   * `dst + [n]`; with `mode` given, each copy is then `chmod`ed to it.
   */
  function CopyNames(fs: FileMap, pkg: FileMap, src: Path, dst: Path, names: set<string>, mode: Option<nat>): (r: FileMap)
    requires forall n :: n in names ==> IsFile(pkg, src + [n])
    ensures forall q :: Get(r, q) ==
              if InDir(q, dst, names) then (var n := q[|dst|]; assert n in names && IsFile(pkg, src + [n]); Some(Copied(pkg[src + [n]], mode))) else Get(fs, q)
  {
    var added := set n | n in names :: dst + [n];
    assert forall q :: InDir(q, dst, names) ==> q == dst + [q[|dst|]];
    map q | q in fs.Keys + added ::
      if InDir(q, dst, names) then (var n := q[|dst|]; assert n in names && IsFile(pkg, src + [n]); Copied(pkg[src + [n]], mode)) else fs[q]
  }

  /** A copied file, with its mode replaced when one is given. */
  function Copied(source: Entry, mode: Option<nat>): Entry
    requires source.File?
  {
    match mode
    case None => source
    case Some(m) => File(source.content, m)
  }

  /** Names of all entries directly in `dir` of `tree` (`fs.readdirSync`). */
  function ChildNames(tree: FileMap, dir: Path): (names: set<string>)
    ensures forall n :: n in names <==> dir + [n] in tree
  {
    var names := set q | q in tree.Keys && |q| == |dir| + 1 && q[..|dir|] == dir :: q[|dir|];
    forall n
      ensures n in names <==> dir + [n] in tree
    {
      var q := dir + [n];
      assert q[..|dir|] == dir && q[|dir|] == n;
      if n in names {
        var q' :| q' in tree.Keys && |q'| == |dir| + 1 && q'[..|dir|] == dir && q'[|dir|] == n;
        assert q' == dir + [n];
      }
    }
    names
  }

  /** One more name copied is one more entry written over the earlier copies. */
  lemma CopyNamesAdd(fs: FileMap, pkg: FileMap, src: Path, dst: Path, names: set<string>, n: string, mode: Option<nat>)
    requires forall m :: m in names ==> IsFile(pkg, src + [m])
    requires IsFile(pkg, src + [n])
    ensures CopyNames(fs, pkg, src, dst, names + {n}, mode) == CopyNames(fs, pkg, src, dst, names, mode)[dst + [n] := Copied(pkg[src + [n]], mode)]
  {
    var a := CopyNames(fs, pkg, src, dst, names + {n}, mode);
    var b := CopyNames(fs, pkg, src, dst, names, mode)[dst + [n] := Copied(pkg[src + [n]], mode)];
    forall q
      ensures Get(a, q) == Get(b, q)
    {
      if q == dst + [n] {
        assert q[..|dst|] == dst && q[|dst|] == n;
      }
    }
    Extensional(a, b);
  }

  /** The text `fs.readFileSync(p, "utf8")` returns: `None` when it throws (no entry, or a directory). */
  function ReadText(fs: FileMap, p: Path): Option<string> {
    if IsFile(fs, p) then Render(fs[p].content) else None
  }

  /** The text of a content; generated documents are not rendered in this model. */
  function Render(c: Content): Option<string> {
    if c.Text? then Some(c.text) else None
  }

  /**
   * What `copyDir` leaves at a destination path whose source entry is `e`:
   * a file is copied over; a directory is `mkdirp`ed, which keeps what is there.
   */
  function Mirrored(fs: FileMap, e: Entry, q: Path): Entry {
    if e.File? then e else if q in fs then fs[q] else Dir
  }

  /** `copyDir(src, dst)` from the package tree: `dst` and its ancestors made, then `src`'s subtree mirrored below it. */
  function CopyTree(fs: FileMap, pkg: FileMap, src: Path, dst: Path): (r: FileMap)
    ensures forall q :: Get(r, q) ==
              if IsPrefix(dst, q) && src + q[|dst|..] in pkg then Some(Mirrored(fs, pkg[src + q[|dst|..]], q))
              else if IsPrefix(q, dst) && q !in fs then Some(Dir)
              else Get(fs, q)
  {
    var below := set s | s in pkg.Keys && IsPrefix(src, s) :: dst + s[|src|..];
    forall q | IsPrefix(dst, q) && src + q[|dst|..] in pkg
      ensures q in below
    {
      var s := src + q[|dst|..];
      assert IsPrefix(src, s) && s[|src|..] == q[|dst|..];
      assert dst + s[|src|..] == q;
    }
    forall q | q in below
      ensures IsPrefix(dst, q) && src + q[|dst|..] in pkg
    {
      var s :| s in pkg.Keys && IsPrefix(src, s) && q == dst + s[|src|..];
      assert q[|dst|..] == s[|src|..];
      assert src + s[|src|..] == s;
    }
    map q | q in fs.Keys + Prefixes(dst) + below ::
      if IsPrefix(dst, q) && src + q[|dst|..] in pkg then Mirrored(fs, pkg[src + q[|dst|..]], q)
      else if IsPrefix(q, dst) && q !in fs then Dir
      else fs[q]
  }

  /** `copyDir(src, dst)` does not throw: no file on the way to `dst`, and no file where a directory goes or the other way round. */
  predicate TreeCopySafe(fs: FileMap, pkg: FileMap, src: Path, dst: Path) {
    (forall i :: 0 <= i <= |dst| ==> !IsFile(fs, dst[..i])) &&
    forall p :: p in pkg && IsPrefix(src, p) ==>
      (pkg[p].File? ==> !IsDir(fs, dst + p[|src|..])) && (pkg[p].Dir? ==> !IsFile(fs, dst + p[|src|..]))
  }

  /** Mirroring a tree into a tree gives a tree. */
  lemma CopyTreeShaped(fs: FileMap, pkg: FileMap, src: Path, dst: Path)
    requires TreeShaped(fs) && TreeShaped(pkg) && IsDir(pkg, src) && TreeCopySafe(fs, pkg, src, dst)
    ensures TreeShaped(CopyTree(fs, pkg, src, dst))
  {
    var r := CopyTree(fs, pkg, src, dst);
    assert IsPrefix([], dst);
    forall q | q in r && q != []
      ensures IsDir(r, Parent(q))
    {
      CopyTreeParent(fs, pkg, src, dst, q);
    }
  }

  lemma CopyTreeParent(fs: FileMap, pkg: FileMap, src: Path, dst: Path, q: Path)
    requires TreeShaped(fs) && TreeShaped(pkg) && IsDir(pkg, src) && TreeCopySafe(fs, pkg, src, dst)
    requires q in CopyTree(fs, pkg, src, dst) && q != []
    ensures IsDir(CopyTree(fs, pkg, src, dst), Parent(q))
  {
    var up := Parent(q);
    if IsPrefix(dst, q) && |q| > |dst| {
      // the parent is `dst` or lies below it, a copied directory or one already there
      var t := src + q[|dst|..];
      var s := src + up[|dst|..];
      assert up[..|dst|] == dst;
      assert IsPrefix(src, s) && s[|src|..] == up[|dst|..] && dst + s[|src|..] == up;
      if t in pkg {
        assert Parent(t) == s;
        assert IsDir(pkg, s);
      } else {
        assert q in fs;
        assert IsDir(fs, up);
      }
    } else if IsPrefix(q, dst) {
      assert IsPrefix(up, dst);
    } else {
      assert q in fs && IsDir(fs, up);
    }
  }

  /** Two maps that agree at every path are equal. */
  lemma Extensional(a: FileMap, b: FileMap)
    requires forall q :: Get(a, q) == Get(b, q)
    ensures a == b
  {
    assert forall q :: q in a <==> Get(a, q).Some?;
    assert forall q :: q in b <==> Get(b, q).Some?;
    assert a.Keys == b.Keys;
    forall q | q in a
      ensures a[q] == b[q]
    {
      assert Get(a, q) == Get(b, q);
    }
  }

  /**
   * The filesystem as the tool sees it, changed in place by the `fs` calls.
   * Each method requires what the call needs in order not to throw.
   */
  class FileSystem {
    var entries: FileMap

    ghost predicate Valid()
      reads this
    {
      TreeShaped(entries)
    }

    constructor (init: FileMap)
      requires TreeShaped(init)
      ensures Valid() && entries == init
    {
      entries := init;
    }

    /** `fs.existsSync(p)`. */
    function Exists(p: Path): bool
      reads this
    {
      p in entries
    }

    /** `fs.mkdirSync(p, { recursive: true })`: throws when `p` or an ancestor is a file. */
    method MakeDirs(p: Path)
      requires Valid()
      requires forall i :: 0 <= i <= |p| ==> !IsFile(entries, p[..i])
      modifies this
      ensures Valid() && entries == MkdirAll(old(entries), p)
    {
      ghost var before := entries;
      entries := MkdirAll(entries, p);
      forall q | q in entries && q != []
        ensures IsDir(entries, Parent(q))
      {
        if q !in before {
          assert IsPrefix(Parent(q), p);
          assert Parent(q) == p[..|q| - 1];
        }
      }
      assert IsPrefix([], p);
    }

    /** `fs.writeFileSync(p, ...)`: needs the parent directory, and `p` must not be a directory. */
    method WriteFile(p: Path, c: Content)
      requires Valid() && p != [] && IsDir(entries, Parent(p)) && !IsDir(entries, p)
      modifies this
      ensures Valid() && entries == Write(old(entries), p, c)
    {
      entries := Write(entries, p, c);
    }

    /** `fs.copyFileSync(from, p)` with `from` in the package tree. */
    method CopyFile(pkg: FileMap, from: Path, p: Path)
      requires Valid() && IsFile(pkg, from) && p != [] && IsDir(entries, Parent(p)) && !IsDir(entries, p)
      modifies this
      ensures Valid() && entries == CopyEntry(old(entries), p, pkg[from])
    {
      entries := CopyEntry(entries, p, pkg[from]);
    }

    /** `fs.unlinkSync(p)` on a file. */
    method Unlink(p: Path)
      requires Valid() && IsFile(entries, p)
      modifies this
      ensures Valid() && entries == old(entries) - {p}
    {
      entries := entries - {p};
    }

    /** `fs.chmodSync(p, mode)` on a file. */
    method Chmod(p: Path, mode: nat)
      requires Valid() && IsFile(entries, p)
      modifies this
      ensures Valid() && entries == old(entries)[p := File(old(entries)[p].content, mode)]
    {
      entries := entries[p := File(entries[p].content, mode)];
    }
  
    /** `copyDir(src, dst)` from the package tree, taken as one step. */
    method CopyDir(pkg: FileMap, src: Path, dst: Path)
      requires Valid() && TreeShaped(pkg) && IsDir(pkg, src) && TreeCopySafe(entries, pkg, src, dst)
      modifies this
      ensures Valid() && entries == CopyTree(old(entries), pkg, src, dst)
    {
      CopyTreeShaped(entries, pkg, src, dst);
      entries := CopyTree(entries, pkg, src, dst);
    }

    /**
     * A `readdirSync(src)` loop that copies every entry whose name ends with
     * `suffix` into `dst` and, with `mode` given, `chmod`s each copy. The
     * listing is visited in any order.
     */
    method CopyMatching(pkg: FileMap, src: Path, dst: Path, suffix: string, mode: Option<nat>)
      requires Valid() && IsDir(pkg, src) && IsDir(entries, dst)
      requires forall n :: n in ChildNames(pkg, src) && Strings.EndsWith(n, suffix) ==> IsFile(pkg, src + [n]) && !IsDir(entries, dst + [n])
      modifies this
      ensures Valid()
      ensures entries == CopyNames(old(entries), pkg, src, dst, FilesEndingWith(pkg, src, suffix), mode)
    {
      var todo := ChildNames(pkg, src);
      ghost var done: set<string> := {};
      ghost var copied: set<string> := {};
      while todo != {}
        invariant Valid() && IsDir(entries, dst)
        invariant todo + done == ChildNames(pkg, src) && todo !! done
        invariant forall m :: m in copied <==> m in done && Strings.EndsWith(m, suffix)
        invariant forall m :: m in copied ==> IsFile(pkg, src + [m])
        invariant entries == CopyNames(old(entries), pkg, src, dst, copied, mode)
        decreases todo
      {
        var n :| n in todo;
        if Strings.EndsWith(n, suffix) {
          CopyOne(pkg, src, dst, n, mode, old(entries), copied);
          copied := copied + {n};
        }
        todo := todo - {n};
        done := done + {n};
      }
      assert copied == FilesEndingWith(pkg, src, suffix);
    }

    /** One step of `CopyMatching`: `n` copied (and `chmod`ed) over the copies made so far from `base`. */
    method CopyOne(pkg: FileMap, src: Path, dst: Path, n: string, mode: Option<nat>, ghost base: FileMap, ghost copied: set<string>)
      requires Valid() && IsDir(entries, dst) && IsFile(pkg, src + [n]) && !IsDir(base, dst + [n]) && n !in copied
      requires forall m :: m in copied ==> IsFile(pkg, src + [m])
      requires entries == CopyNames(base, pkg, src, dst, copied, mode)
      modifies this
      ensures Valid() && IsDir(entries, dst)
      ensures entries == CopyNames(base, pkg, src, dst, copied + {n}, mode)
    {
      ghost var before := entries;
      assert Get(entries, dst + [n]) == Get(base, dst + [n]) by {
        assert !InDir(dst + [n], dst, copied);
      }
      assert Parent(dst + [n]) == dst;
      CopyFile(pkg, src + [n], dst + [n]);
      if mode.Some? {
        Chmod(dst + [n], mode.value);
      }
      assert entries == before[dst + [n] := Copied(pkg[src + [n]], mode)];
      CopyNamesAdd(base, pkg, src, dst, copied, n, mode);
    }
  }
}
