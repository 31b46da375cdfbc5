/** Which directory a function is scoped to, and what the order of running means for directories. */
module FunctionScopes {
  import opened Wrappers
  import opened GoStrings
  import opened YamlNodes
  import opened Comparisons
  import opened FunctionOrder

  /** A path element that stays when a path is cleaned. */
  predicate PlainName(p: string) { p != "" && p != "." && p != ".." && '/' !in p }

  predicate PlainNames(parts: seq<string>) { forall p :: p in parts ==> PlainName(p) }

  /** A directory below the one that is run, as text. */
  function DirText(dirs: seq<string>): string { if dirs == [] then "." else Join(dirs, '/') }

  function FileText(dirs: seq<string>, file: string): string { Join(dirs + [file], '/') }

  /** The directory that the functions in dirs are scoped to: one above a last directory named functions. */
  function Home(dirs: seq<string>): seq<string> {
    if dirs != [] && dirs[|dirs| - 1] == "functions" then dirs[..|dirs| - 1] else dirs
  }

  // ----- Cleaning -----

  lemma {:induction false} CleanKeeps(parts: seq<string>, kept: seq<string>)
    requires PlainNames(parts)
    ensures CleanParts(parts + [""], false, kept) == kept + parts
    decreases |parts|
  {
    var all := parts + [""];
    if parts == [] {
      assert all[1..] == [] && kept + parts == kept;
    } else {
      assert parts[0] in parts && all[0] == parts[0] && all[1..] == parts[1..] + [""];
      CleanKeeps(parts[1..], kept + [parts[0]]);
      assert kept + [parts[0]] + parts[1..] == kept + parts;
    }
  }

  lemma {:induction false} LastSlash(s: string, f: string)
    requires '/' !in f && (s == "" || s[|s| - 1] == '/')
    ensures UpToLastSlash(s + f) == s
    decreases |f|
  {
    if f == "" {
      assert s + f == s;
    } else {
      assert (s + f)[..|s + f| - 1] == s + f[..|f| - 1] && (s + f)[|s + f| - 1] == f[|f| - 1];
      LastSlash(s, f[..|f| - 1]);
    }
  }

  lemma {:induction false} JoinStarts(dirs: seq<string>)
    requires dirs != [] && PlainNames(dirs)
    ensures Join(dirs, '/') != "" && Join(dirs, '/')[0] != '/'
  {
    assert dirs[0] in dirs && dirs[0][0] in dirs[0];
  }

  /** The directory of a file is the text of the directories above it. */
  lemma {:induction false} DirMeans(dirs: seq<string>, file: string)
    requires PlainNames(dirs) && '/' !in file
    ensures DirName(FileText(dirs, file)) == DirText(dirs)
  {
    if dirs == [] {
      assert dirs + [file] == [file];
      LastSlash("", file);
      assert "" + file == file && Split("", '/') == [""];
      CleanKeeps([], []);
      assert [] + [""] == [""];
    } else {
      JoinSnoc(dirs, file, '/');
      var s := Join(dirs, '/') + "/";
      LastSlash(s, file);
      JoinStarts(dirs);
      JoinSnoc(dirs, "", '/');
      assert Join(dirs + [""], '/') == s;
      forall p | p in dirs + [""] ensures '/' !in p { assert p in dirs || p == ""; }
      SplitJoin(dirs + [""], '/');
      CleanKeeps(dirs, []);
      assert [] + dirs == dirs;
    }
  }

  lemma {:induction false} BaseMeans(dirs: seq<string>)
    requires PlainNames(dirs)
    ensures BaseName(DirText(dirs)) == if dirs == [] then "." else dirs[|dirs| - 1]
  {
    if dirs == [] {
      SplitWhole(".", '/');
    } else {
      var front, last := dirs[..|dirs| - 1], dirs[|dirs| - 1];
      assert last in dirs && dirs == front + [last];
      JoinStarts(dirs);
      var s := Join(dirs, '/');
      if front == [] {
        assert s == last;
      } else {
        JoinSnoc(front, last, '/');
      }
      assert s[|s| - 1] == last[|last| - 1] && last[|last| - 1] in last;
      forall p | p in dirs ensures '/' !in p { assert PlainName(p); }
      SplitJoin(dirs, '/');
    }
  }

  /** The scope of a function is its home directory, and the depth counts the directories above it. */
  lemma {:induction false} ScopeMeans(dirs: seq<string>, file: string)
    requires PlainNames(dirs) && '/' !in file
    ensures Scope(FileText(dirs, file)) == DirText(Home(dirs))
    ensures Depth(Scope(FileText(dirs, file))) == |Home(dirs)|
  {
    hide DirName, BaseName;
    DirMeans(dirs, file);
    BaseMeans(dirs);
    if dirs != [] && dirs[|dirs| - 1] == "functions" {
      var front := dirs[..|dirs| - 1];
      assert dirs == front + ["functions"];
      assert FileText(front, "functions") == DirText(dirs);
      DirMeans(front, "functions");
    } else {
      assert "." != "functions";
    }
    DepthMeans(Home(dirs));
  }

  lemma DepthMeans(dirs: seq<string>)
    requires PlainNames(dirs)
    ensures Depth(DirText(dirs)) == |dirs|
  {
    if dirs != [] {
      forall p | p in dirs ensures '/' !in p { assert PlainName(p); }
      SplitJoin(dirs, '/');
      SplitWhole(".", '/');
      assert dirs[0] in dirs && dirs[0] != ".";
      assert Join(dirs, '/') != ".";
    }
  }

  // ----- The order of running -----

  /** b may come after a: within a file by index, and otherwise deeper scopes first, equally deep ones by name. */
  ghost predicate MayFollow(a: Rank, b: Rank) {
    if a.path == b.path then a.index.Some? && b.index.Some? ==> a.index.value <= b.index.value
    else a.depth > b.depth || (a.depth == b.depth && !Precedes(b.scope, a.scope))
  }

  lemma {:induction false} RunsInOrderIff(s: seq<Rank>)
    ensures RunsInOrder(s) <==> forall i, j :: 0 <= i < j < |s| ==> MayFollow(s[i], s[j])
  {
    forall a: Rank, b: Rank ensures !Less(b, a) <==> MayFollow(a, b) { StringLtMeans(b.scope, a.scope); }
    hide Less, MayFollow;
  }

  /**
   * In a list that runs in order, functions of deeper directories run first:
   * those of dirs before those of dirs', if they come from different files.
   */
  lemma {:induction false} DeeperFirst(
    fns: seq<Fn>, i: nat, j: nat, dirs: seq<string>, file: string, dirs': seq<string>, file': string)
    requires RunsInOrder(Ranks(fns)) && i < j < |fns|
    requires PlainNames(dirs) && '/' !in file && PlainNames(dirs') && '/' !in file'
    requires fns[i].path == FileText(dirs, file) && fns[j].path == FileText(dirs', file')
    requires fns[i].path != fns[j].path
    ensures |Home(dirs)| >= |Home(dirs')|
    ensures |Home(dirs)| == |Home(dirs')| ==> !Precedes(DirText(Home(dirs')), DirText(Home(dirs)))
  {
    RanksAre(fns);
    RunsInOrderIff(Ranks(fns));
    ScopeMeans(dirs, file);
    ScopeMeans(dirs', file');
    hide Scope, Depth, RunsInOrder, Precedes;
    assert MayFollow(Ranks(fns)[i], Ranks(fns)[j]);
  }
}
