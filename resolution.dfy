/**
 * Which file a scratch path names. The rest of the model compares paths as strings, but the
 * file system walks a path component by component, and a '..' component climbs out of the
 * directory before it. `convert_video` puts the client's file name into the input scratch path
 * unchanged, and `os.makedirs` creates the directory `input_{job}_` that such a name needs, so a
 * file name like `/../../x` names `/tmp/x` whatever the job id. Below, `Resolve` models that
 * walk for paths with no symbolic links, and `ConfinedInputPath` keeps only the last component
 * of the client's file name, which confines every job to its own file.
 */
module Resolution {
  import opened PosixPath
  import opened Naming

  /** `p` has no '/' in it: it is a single path component. */
  predicate NoSeparator(p: string)
  {
    forall j :: 0 <= j < |p| ==> p[j] != '/'
  }

  /** The index of the first '/' in `p`, or `|p|` when there is none. */
  function FindSeparator(p: string): (i: nat)
    ensures i <= |p|
    ensures i < |p| ==> p[i] == '/'
    ensures forall j :: 0 <= j < i ==> p[j] != '/'
  {
    if p == [] then 0
    else if p[0] == '/' then 0
    else 1 + FindSeparator(p[1..])
  }

  /** `p.split('/')`: the components of a path, empty ones included. */
  function Components(p: string): (cs: seq<string>)
    ensures |cs| > 0
    ensures forall k :: 0 <= k < |cs| ==> NoSeparator(cs[k])
    decreases |p|
  {
    var i := FindSeparator(p);
    if i == |p| then [p] else [p[..i]] + Components(p[i + 1..])
  }

  /** `'/'.join(names)`. */
  function JoinAll(names: seq<string>): string
  {
    if names == [] then ""
    else if |names| == 1 then names[0]
    else names[0] + "/" + JoinAll(names[1..])
  }

  /** Splitting a path and joining its components again gives the path back. */
  lemma {:induction false} JoinComponents(p: string)
    ensures JoinAll(Components(p)) == p
    decreases |p|
  {
    var i := FindSeparator(p);
    if i < |p| {
      var rest := p[i + 1..];
      JoinComponents(rest);
      assert p == p[..i] + "/" + rest;
    }
  }

  /** A component a directory walk keeps: it neither stays (`""`, `.`) nor climbs (`..`). */
  predicate IsName(c: string)
  {
    c != "" && c != "." && c != ".."
  }

  /**
   * The directories passed through, from the root, after walking `components` down from
   * `dirs`: an empty component and '.' stay, '..' climbs one level (the root is its own
   * parent), and any other name descends.
   */
  function Walk(dirs: seq<string>, components: seq<string>): (r: seq<string>)
    requires forall k :: 0 <= k < |dirs| ==> IsName(dirs[k])
    ensures forall k :: 0 <= k < |r| ==> IsName(r[k])
    decreases |components|
  {
    if components == [] then dirs
    else
      var c := components[0];
      if !IsName(c) then
        Walk(if c == ".." && dirs != [] then dirs[..|dirs| - 1] else dirs, components[1..])
      else
        Walk(dirs + [c], components[1..])
  }

  /** The file an absolute path names, when no directory on the way is a symbolic link. */
  function Resolve(p: string): string
  {
    "/" + JoinAll(Walk([], Components(p)))
  }

  /** A component without '/' comes off the front of a path whole. */
  lemma ComponentsAfter(a: string, b: string)
    requires NoSeparator(a)
    ensures Components(a + "/" + b) == [a] + Components(b)
  {
    var p := a + "/" + b;
    assert p[|a|] == '/';
    forall j | 0 <= j < |a| ensures p[j] != '/' {
      assert p[j] == a[j];
    }
    assert FindSeparator(p) == |a|;
    assert p[..|a|] == a;
    assert p[|a| + 1..] == b;
  }

  /** A text without '/' is a single component. */
  lemma ComponentsOfName(a: string)
    requires NoSeparator(a)
    ensures Components(a) == [a]
  {
  }

  /** A job id has no '/', so neither has `input_{job}_{name}` when the name has none. */
  lemma NoSeparatorInInputName(job: string, name: string)
    requires IsJobId(job) && NoSeparator(name)
    ensures NoSeparator("input_" + job + "_" + name)
  {
    var n := "input_" + job + "_" + name;
    forall i | 0 <= i < |n| ensures n[i] != '/' {
      if 6 <= i < 6 + |job| {
        assert n[i] == job[i - 6];
        assert job[i - 6] in "0123456789abcdef-";
      } else if i >= 7 + |job| {
        assert n[i] == name[i - 7 - |job|];
      }
    }
  }

  /** Splitting at a '/' splits the two sides apart: `(p + "/" + q).split('/') == p.split('/') + q.split('/')`. */
  lemma {:induction false} ComponentsOfJoin(p: string, q: string)
    ensures Components(p + "/" + q) == Components(p) + Components(q)
    decreases |p|
  {
    var i := FindSeparator(p);
    if i == |p| {
      ComponentsAfter(p, q);
      ComponentsOfName(p);
    } else {
      var head, tail := p[..i], p[i + 1..];
      assert NoSeparator(head);
      assert p == head + "/" + tail;
      calc {
        Components(p + "/" + q);
        { assert (head + "/" + tail) + "/" + q == head + "/" + (tail + "/" + q); }
        Components(head + "/" + (tail + "/" + q));
        { ComponentsAfter(head, tail + "/" + q); }
        [head] + Components(tail + "/" + q);
        { ComponentsOfJoin(tail, q); }
        [head] + (Components(tail) + Components(q));
        ([head] + Components(tail)) + Components(q);
        { ComponentsAfter(head, tail); }
        Components(p) + Components(q);
      }
    }
  }

  /** The processing directory, spelled as the root followed by its two names; kept apart to keep the literal out of larger proofs. */
  lemma ProcessingDirectoryParts()
    ensures TempProcessingDir == "" + "/" + "tmp" + "/" + "videoconverter_processing"
  {
  }

  /** The two names of the processing directory are plain names, free of '/'. */
  lemma ProcessingDirectoryNames()
    ensures NoSeparator("tmp") && NoSeparator("videoconverter_processing")
    ensures IsName("tmp") && IsName("videoconverter_processing")
  {
  }

  /** An absolute path of two names splits into the root's empty component and the two names. */
  lemma ComponentsOfTwoNames(t: string, v: string)
    requires NoSeparator(t) && NoSeparator(v)
    ensures Components("" + "/" + t + "/" + v) == ["", t, v]
  {
    ComponentsOfJoin("" + "/" + t, v);
    ComponentsOfJoin("", t);
    ComponentsOfName("");
    ComponentsOfName(t);
    ComponentsOfName(v);
  }

  /** The processing directory is `/tmp/videoconverter_processing`, two names below the root. */
  lemma ProcessingDirectoryComponents()
    ensures Components(TempProcessingDir) == ["", "tmp", "videoconverter_processing"]
  {
    ProcessingDirectoryParts();
    ProcessingDirectoryNames();
    ComponentsOfTwoNames("tmp", "videoconverter_processing");
  }

  /** `'/'.join([a, b])`. */
  lemma JoinTwo(a: string, b: string)
    ensures JoinAll([a, b]) == a + "/" + b
  {
    assert [a, b][1..] == [b];
  }

  /** `'/'.join([a, b, c])`. */
  lemma JoinThree(a: string, b: string, c: string)
    ensures JoinAll([a, b, c]) == a + "/" + (b + "/" + c)
  {
    assert [a, b, c][1..] == [b, c];
    JoinTwo(b, c);
  }

  /** A name descends, '..' climbs, and the empty component stays, one step of the walk each. */
  lemma WalkStep(dirs: seq<string>, c: string, rest: seq<string>)
    requires forall k :: 0 <= k < |dirs| ==> IsName(dirs[k])
    ensures IsName(c) ==> Walk(dirs, [c] + rest) == Walk(dirs + [c], rest)
    ensures c == "" ==> Walk(dirs, [c] + rest) == Walk(dirs, rest)
    ensures c == ".." && dirs != [] ==> Walk(dirs, [c] + rest) == Walk(dirs[..|dirs| - 1], rest)
  {
    assert ([c] + rest)[0] == c;
    assert ([c] + rest)[1..] == rest;
  }

  /** The file name `convert_video` accepts that makes every job's input path name `/tmp/x`. */
  const Traversal := "/../../x"

  lemma TraversalParts()
    ensures Traversal == "/" + ".." + "/" + ".." + "/" + "x"
    ensures NoSeparator("..") && NoSeparator("x") && IsName("x")
  {
  }

  /** A path below `dir` that names `n`, climbs twice and names `x` splits into those components. */
  lemma ComponentsOfClimb(dir: string, n: string, up: string, x: string)
    requires NoSeparator(n) && NoSeparator(up) && NoSeparator(x)
    ensures Components(dir + "/" + (n + "/" + up + "/" + up + "/" + x)) == Components(dir) + [n, up, up, x]
  {
    ComponentsOfJoin(dir, n + "/" + up + "/" + up + "/" + x);
    ComponentsOfJoin(n + "/" + up + "/" + up, x);
    ComponentsOfJoin(n + "/" + up, up);
    ComponentsOfJoin(n, up);
    ComponentsOfName(n);
    ComponentsOfName(up);
    ComponentsOfName(x);
  }

  /** From the root, the root's empty component and two names descend to those two names. */
  lemma {:induction false} WalkFromRoot(t: string, v: string, rest: seq<string>)
    requires IsName(t) && IsName(v)
    ensures Walk([], ["", t, v] + rest) == Walk([t, v], rest)
  {
    calc {
      Walk([], ["", t, v] + rest);
      { assert ["", t, v] + rest == [""] + ([t, v] + rest); WalkStep([], "", [t, v] + rest); }
      Walk([], [t, v] + rest);
      { assert [t, v] + rest == [t] + ([v] + rest); WalkStep([], t, [v] + rest); assert [] + [t] == [t]; }
      Walk([t], [v] + rest);
      { WalkStep([t], v, rest); assert [t] + [v] == [t, v]; }
      Walk([t, v], rest);
    }
  }

  /** One name down, two levels up, then a name: the walk ends one level below where it started. */
  lemma {:induction false} DescendAndClimbTwice(t: string, v: string, n: string, x: string)
    requires IsName(t) && IsName(v) && IsName(n) && IsName(x)
    ensures Walk([t, v], [n, "..", "..", x]) == [t, x]
  {
    calc {
      Walk([t, v], [n, "..", "..", x]);
      { assert [n, "..", "..", x] == [n] + ["..", "..", x]; WalkStep([t, v], n, ["..", "..", x]); assert [t, v] + [n] == [t, v, n]; }
      Walk([t, v, n], ["..", "..", x]);
      { assert ["..", "..", x] == [".."] + ["..", x]; WalkStep([t, v, n], "..", ["..", x]); assert [t, v, n][..2] == [t, v]; }
      Walk([t, v], ["..", x]);
      { assert ["..", x] == [".."] + [x]; WalkStep([t, v], "..", [x]); assert [t, v][..1] == [t]; }
      Walk([t], [x]);
      { assert [x] == [x] + []; WalkStep([t], x, []); assert [t] + [x] == [t, x]; }
      Walk([t, x], []);
    }
  }

  /** Two names down, a third, then two levels up and a fourth: the walk ends at the first and the fourth. */
  lemma {:induction false} WalkOfClimb(t: string, v: string, n: string, x: string)
    requires IsName(t) && IsName(v) && IsName(n) && IsName(x)
    ensures Walk([], ["", t, v] + [n, "..", "..", x]) == [t, x]
  {
    WalkFromRoot(t, v, [n, "..", "..", x]);
    DescendAndClimbTwice(t, v, n, x);
  }

  /** Three names down from the root: the walk passes through exactly those three. */
  lemma {:induction false} WalkOfThreeNames(t: string, v: string, n: string)
    requires IsName(t) && IsName(v) && IsName(n)
    ensures Walk([], ["", t, v] + [n]) == [t, v, n]
  {
    WalkFromRoot(t, v, [n]);
    assert [n] == [n] + [];
    WalkStep([t, v], n, []);
    assert [t, v] + [n] == [t, v, n];
  }

  /** The root, then three names, written as the directory of the first two and the third. */
  lemma AbsolutePathOfThreeNames(t: string, v: string, n: string)
    ensures "/" + (t + "/" + (v + "/" + n)) == ("" + "/" + t + "/" + v) + "/" + n
  {
  }

  /** `input_{job}_{name}` is a name: it has no '/' and is neither empty nor '.' nor '..'. */
  lemma InputPrefixIsName(job: string, name: string)
    requires IsJobId(job) && NoSeparator(name)
    ensures NoSeparator("input_" + job + "_" + name) && IsName("input_" + job + "_" + name)
  {
    NoSeparatorInInputName(job, name);
    assert |"input_" + job + "_" + name| > 2;
  }

  /** The path `/tmp/x` spelled as the root followed by two names; kept apart to keep the literal out of larger proofs. */
  lemma EscapedFileParts()
    ensures "/" + ("tmp" + "/" + "x") == "/tmp/x"
  {
  }

  /** The input scratch path of `/../../x` spelled out, component by component. */
  lemma TraversalInputPath(job: string)
    ensures LocalInputPath(job, Traversal)
         == TempProcessingDir + "/" + (("input_" + job + "_") + "/" + ".." + "/" + ".." + "/" + "x")
  {
    ScratchPathsOfJob(job, Traversal, "");
    TraversalParts();
  }

  /**
   * As written, the input scratch path of the file name `/../../x` names `/tmp/x`, outside the
   * processing directory, for every job id; two jobs with this file name share that file.
   */
  lemma {:induction false} TraversalEscapesProcessingDirectory(job: string)
    requires IsJobId(job)
    ensures Resolve(LocalInputPath(job, Traversal)) == "/tmp/x"
  {
    var n := "input_" + job + "_";
    InputPrefixIsName(job, "");
    assert n + "" == n;
    TraversalParts();
    ProcessingDirectoryNames();
    var path := LocalInputPath(job, Traversal);
    TraversalInputPath(job);
    assert path == TempProcessingDir + "/" + (n + "/" + ".." + "/" + ".." + "/" + "x");
    ComponentsOfClimb(TempProcessingDir, n, "..", "x");
    ProcessingDirectoryComponents();
    assert Components(path) == ["", "tmp", "videoconverter_processing"] + [n, "..", "..", "x"];
    WalkOfClimb("tmp", "videoconverter_processing", n, "x");
    JoinTwo("tmp", "x");
    assert Resolve(path) == "/" + ("tmp" + "/" + "x");
    EscapedFileParts();
  }

  /**
   * Distinct path strings, one file: two jobs that both receive the file name `/../../x` get
   * different input scratch paths, which nonetheless name the same file, `/tmp/x`.
   */
  lemma {:induction false} DistinctJobsShareTraversalFile(job1: string, job2: string)
    requires IsJobId(job1) && IsJobId(job2) && job1 != job2
    ensures LocalInputPath(job1, Traversal) != LocalInputPath(job2, Traversal)
    ensures Resolve(LocalInputPath(job1, Traversal)) == Resolve(LocalInputPath(job2, Traversal)) == "/tmp/x"
  {
    DistinctJobsDistinctNames(job1, Traversal, "", job2, Traversal, "");
    TraversalEscapesProcessingDirectory(job1);
    TraversalEscapesProcessingDirectory(job2);
  }

  /** The client's file name without any directory part: what follows its last '/'. */
  function FinalComponent(name: string): (r: string)
    ensures NoSeparator(r)
    ensures |r| <= |name| && r == name[|name| - |r|..]
  {
    name[RFind(name, '/') + 1..]
  }

  /** The input scratch path built from the final component of the client's file name only. */
  function ConfinedInputPath(job: string, original: string): string
  {
    LocalInputPath(job, FinalComponent(original))
  }

  /**
   * A confined input path names a file directly in the processing directory, called
   * `input_{job}_{name}`, and it names that file without any walk: it resolves to itself.
   */
  lemma {:induction false} ConfinedInputStaysInProcessingDirectory(job: string, original: string)
    requires IsJobId(job)
    ensures var n := "input_" + job + "_" + FinalComponent(original);
      && Walk([], Components(ConfinedInputPath(job, original))) == ["tmp", "videoconverter_processing", n]
      && Resolve(ConfinedInputPath(job, original)) == ConfinedInputPath(job, original)
  {
    var n := "input_" + job + "_" + FinalComponent(original);
    ConfinedInputComponents(job, original);
    ProcessingDirectoryNames();
    WalkOfThreeNames("tmp", "videoconverter_processing", n);
    JoinThree("tmp", "videoconverter_processing", n);
    ProcessingDirectoryParts();
    AbsolutePathOfThreeNames("tmp", "videoconverter_processing", n);
  }

  /** The name `input_{job}_{name}` regrouped as one component after the directory and its '/'. */
  lemma RegroupInputPath(dir: string, prefix: string, job: string, name: string)
    ensures dir + "/" + prefix + job + ("_" + name) == dir + "/" + (prefix + job + "_" + name)
  {
  }

  /** A confined input path is the processing directory's components and one name, `input_{job}_{name}`. */
  lemma ConfinedInputComponents(job: string, original: string)
    requires IsJobId(job)
    ensures var n := "input_" + job + "_" + FinalComponent(original);
      && ConfinedInputPath(job, original) == TempProcessingDir + "/" + n
      && IsName(n)
      && Components(ConfinedInputPath(job, original)) == ["", "tmp", "videoconverter_processing"] + [n]
  {
    var name := FinalComponent(original);
    var n := "input_" + job + "_" + name;
    InputPrefixIsName(job, name);
    ScratchPathsOfJob(job, name, "");
    RegroupInputPath(TempProcessingDir, "input_", job, name);
    ComponentsOfJoin(TempProcessingDir, n);
    ProcessingDirectoryComponents();
    ComponentsOfName(n);
  }

  /** With confined input paths, distinct jobs read and write distinct files, whatever the file names. */
  lemma {:induction false} ConfinedInputsOfDistinctJobsDiffer(job1: string, original1: string, job2: string, original2: string)
    requires IsJobId(job1) && IsJobId(job2) && job1 != job2
    ensures Resolve(ConfinedInputPath(job1, original1)) != Resolve(ConfinedInputPath(job2, original2))
  {
    ConfinedInputStaysInProcessingDirectory(job1, original1);
    ConfinedInputStaysInProcessingDirectory(job2, original2);
    DistinctJobsDistinctNames(job1, FinalComponent(original1), "", job2, FinalComponent(original2), "");
  }
}
