/** The server's storage directory: which files exist and what they hold. A file name on
    disk is a string; the model keeps its parts, and `RenderInjective` shows that no two
    of the model's paths are the same string. */
module Storage {
  import opened Basics
  import opened Numerals
  import opened FileNames

  /** `<storage>/<stamp>-<event>-<user>`. */
  datatype Dir = Dir(stamp: string, event: nat, user: string)

  /** A work file `<storage>/.transfers/<session>-<event>.part`, or a stored file. */
  datatype Path = WorkFile(session: nat, event: nat) | Stored(dir: Dir, name: string)

  type Files = map<Path, seq<byte>>

  function RenderDir(d: Dir): string {
    d.stamp + ("-" + (Decimal(d.event) + ("-" + d.user)))
  }

  function Render(p: Path): string {
    match p
    case WorkFile(s, e) => ".transfers" + ("/" + (Decimal(s) + ("-" + (Decimal(e) + ".part"))))
    case Stored(d, name) => RenderDir(d) + ("/" + name)
  }

  /** Time stamps have the fixed shape `%Y%m%d-%H%M%S`; user and name are sanitized. */
  predicate Renderable(p: Path) {
    p.Stored? ==>
      && |p.dir.stamp| == 15 && '/' !in p.dir.stamp && p.dir.stamp[0] != '.'
      && '/' !in p.dir.user && '/' !in p.name
  }

  lemma NumberThen(a: nat, x: string, b: nat, y: string, sep: char)
    requires !IsDigit(sep)
    requires Decimal(a) + ([sep] + x) == Decimal(b) + ([sep] + y)
    ensures a == b && x == y
  {
    DecimalDenotes(a);
    DecimalDenotes(b);
    Assoc(Decimal(a), [sep], x);
    Assoc(Decimal(b), [sep], y);
    SplitUnique(Decimal(a), x, Decimal(b), y, sep);
    DecimalInjective(a, b);
  }

  lemma RenderDirInjective(d: Dir, e: Dir)
    requires |d.stamp| == |e.stamp| && RenderDir(d) == RenderDir(e)
    ensures d == e
  {
    var dn, en := Decimal(d.event) + ("-" + d.user), Decimal(e.event) + ("-" + e.user);
    assert RenderDir(d)[..|d.stamp|] == d.stamp && RenderDir(e)[..|e.stamp|] == e.stamp;
    assert RenderDir(d)[|d.stamp| + 1..] == dn && RenderDir(e)[|e.stamp| + 1..] == en;
    NumberThen(d.event, d.user, e.event, e.user, '-');
  }

  lemma DirHasNoSlash(d: Dir)
    requires '/' !in d.stamp && '/' !in d.user
    ensures '/' !in RenderDir(d)
  {
    DecimalDenotes(d.event);
  }

  lemma WorkNameInjective(p: Path, q: Path)
    requires p.WorkFile? && q.WorkFile? && Render(p) == Render(q)
    ensures p == q
  {
    var pn := Decimal(p.session) + ("-" + (Decimal(p.event) + ".part"));
    var qn := Decimal(q.session) + ("-" + (Decimal(q.event) + ".part"));
    assert Render(p)[11..] == pn && Render(q)[11..] == qn;
    NumberThen(p.session, Decimal(p.event) + ".part", q.session, Decimal(q.event) + ".part", '-');
    assert ['.'] + "part" == ".part";
    NumberThen(p.event, "part", q.event, "part", '.');
  }

  lemma FirstCharacter(p: Path)
    requires Renderable(p)
    ensures |Render(p)| > 0 && (Render(p)[0] == '.' <==> p.WorkFile?)
  {}

  /** Different paths of the model are different paths on disk. */
  lemma RenderInjective(p: Path, q: Path)
    requires Renderable(p) && Renderable(q) && Render(p) == Render(q)
    ensures p == q
  {
    FirstCharacter(p);
    FirstCharacter(q);
    if p.WorkFile? {
      WorkNameInjective(p, q);
    } else {
      DirHasNoSlash(p.dir);
      DirHasNoSlash(q.dir);
      Assoc(RenderDir(p.dir), "/", p.name);
      Assoc(RenderDir(q.dir), "/", q.name);
      SplitUnique(RenderDir(p.dir), p.name, RenderDir(q.dir), q.name, '/');
      RenderDirInjective(p.dir, q.dir);
    }
  }

  function InDir(files: Files, d: Dir): set<Path> {
    set p | p in files && p.Stored? && p.dir == d
  }

  /** No stored file lies in the directory. */
  predicate EmptyDir(files: Files, d: Dir) {
    forall p <- files :: p.Stored? ==> p.dir != d
  }

  lemma EmptyDirHoldsNothing(files: Files, d: Dir)
    requires EmptyDir(files, d)
    ensures InDir(files, d) == {} && NamesIn(files, d) == {} && WithoutDir(files, d) == files
  {
    assert InDir(files, d) == {};
    assert WithoutDir(files, d) == files;
  }

  function NamesIn(files: Files, d: Dir): set<string> {
    set p | p in InDir(files, d) :: p.name
  }

  lemma NamesCount(files: Files, d: Dir)
    ensures |NamesIn(files, d)| == |InDir(files, d)|
    ensures forall name :: name in NamesIn(files, d) <==> Stored(d, name) in files
  {
    NamesOf(InDir(files, d), d);
  }

  lemma {:induction false} NamesOf(paths: set<Path>, d: Dir)
    requires forall p <- paths :: p.Stored? && p.dir == d
    ensures |set p | p in paths :: p.name| == |paths|
    ensures forall name :: name in (set p | p in paths :: p.name) <==> Stored(d, name) in paths
  {
    var names := set p | p in paths :: p.name;
    forall name ensures name in names <==> Stored(d, name) in paths {
      if Stored(d, name) in paths {
        assert Stored(d, name).name in names;
      }
    }
    if paths != {} {
      var p :| p in paths;
      var rest := paths - {p};
      NamesOf(rest, d);
      assert names == (set q | q in rest :: q.name) + {p.name};
      assert p == Stored(d, p.name);
    }
  }

  /** `std::filesystem::remove_all` on a directory. */
  function WithoutDir(files: Files, d: Dir): Files {
    files - InDir(files, d)
  }
}
