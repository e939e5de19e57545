/** server_common/filetransfer.cpp: client-supplied names made safe, and names probed
    until one is free. */
module FileNames {
  import opened Numerals

  const MAX_NAME_BYTES := 240
  const MAX_PROBE := 10000

  /** The last component of a POSIX path, `std::filesystem::path::filename`. */
  function LastComponent(path: string): string {
    if path == [] then []
    else if path[|path| - 1] == '/' then []
    else LastComponent(path[..|path| - 1]) + [path[|path| - 1]]
  }

  lemma {:induction false} LastComponentIsPlain(path: string)
    ensures '/' !in LastComponent(path)
    ensures '/' !in path ==> LastComponent(path) == path
  {
    if path != [] && path[|path| - 1] != '/' {
      LastComponentIsPlain(path[..|path| - 1]);
      assert path == path[..|path| - 1] + [path[|path| - 1]];
    }
  }

  predicate Forbidden(c: char) {
    c as int < 0x20 || c in "/\\:*?\"<>|"
  }

  /** What may be stored: a single, bounded, ordinary file name. */
  predicate SafeName(name: string) {
    && 0 < |name| <= MAX_NAME_BYTES
    && name != "." && name != ".."
    && forall c <- name :: !Forbidden(c)
  }

  function BaseName(name: string): string {
    var last := LastComponent(name);
    if last == "" || last == "." || last == ".." then "clipboard-file" else last
  }

  function Sanitized(name: string): string {
    var base := BaseName(name);
    var clean := seq(|base|, i requires 0 <= i < |base| => if Forbidden(base[i]) then '_' else base[i]);
    if |clean| > MAX_NAME_BYTES then clean[..MAX_NAME_BYTES] else clean
  }

  /** Every sanitized name is safe, and exactly the safe names are left alone. */
  lemma SanitizedIsSafe(name: string)
    ensures SafeName(Sanitized(name))
    ensures Sanitized(name) == name <==> SafeName(name)
  {
    LastComponentIsPlain(name);
    var base := BaseName(name);
    var s := Sanitized(name);
    assert |s| > 0;
    assert forall i | 0 <= i < |s| :: s[i] == '.' ==> base[i] == '.';
    assert |s| == 1 ==> |base| == 1 && base != ".";
    assert |s| == 2 ==> |base| == 2 && base != "..";
    assert s == "." ==> base == ".";
    assert s == ".." ==> base == "..";
    if SafeName(name) {
      assert '/' !in name;
      assert base == name;
      assert s == name;
    }
  }

  lemma {:induction false} LastComponentIs(directory: string, last: string)
    requires '/' !in last && (directory == "" || directory[|directory| - 1] == '/')
    ensures LastComponent(directory + last) == last
  {
    var path := directory + last;
    if last != "" {
      assert path[..|path| - 1] == directory + last[..|last| - 1];
      assert path[|path| - 1] == last[|last| - 1] && last == last[..|last| - 1] + [last[|last| - 1]];
      assert last[|last| - 1] in last;
      LastComponentIs(directory, last[..|last| - 1]);
    } else {
      assert path == directory;
    }
  }

  /** Every path is a directory part and a last component. */
  lemma {:induction false} PathSplits(path: string) returns (directory: string, last: string)
    ensures path == directory + last && '/' !in last
    ensures directory == "" || directory[|directory| - 1] == '/'
  {
    if path == "" || path[|path| - 1] == '/' {
      directory, last := path, "";
    } else {
      directory, last := PathSplits(path[..|path| - 1]);
      last := last + [path[|path| - 1]];
    }
  }

  /** What a sanitized name is, for every client-supplied path: its last component, or the
      stock name where that names no file, with an underscore for each control character,
      separator or reserved character, cut after 240. */
  lemma SanitizedExact(directory: string, last: string)
    requires '/' !in last && (directory == "" || directory[|directory| - 1] == '/')
    ensures var base := if last == "" || last == "." || last == ".." then "clipboard-file" else last;
            && |Sanitized(directory + last)| == (if |base| < 240 then |base| else 240)
            && forall i | 0 <= i < |Sanitized(directory + last)| ::
                 Sanitized(directory + last)[i]
                 == if (base[i] as int) < 32 || base[i] in ['/', '\\', ':', '*', '?', '"', '<', '>', '|'] then '_'
                    else base[i]
  {
    LastComponentIs(directory, last);
    var base := BaseName(directory + last);
    var reserved := "/\\:*?\"<>|";
    assert reserved == ['/', '\\', ':', '*', '?', '"', '<', '>', '|'];
  }

  /** `sanitizeFileName`: the replacement runs over a local copy in place. */
  method SanitizeFileName(fileName: string) returns (sanitized: string)
    ensures sanitized == Sanitized(fileName)
    ensures SafeName(sanitized)
  {
    sanitized := BaseName(fileName);
    ghost var base := sanitized;
    var i := 0;
    while i < |sanitized|
      invariant 0 <= i <= |sanitized| == |base|
      invariant forall k | 0 <= k < i :: sanitized[k] == if Forbidden(base[k]) then '_' else base[k]
      invariant forall k | i <= k < |base| :: sanitized[k] == base[k]
    {
      if Forbidden(sanitized[i]) {
        sanitized := sanitized[i := '_'];
      }
      i := i + 1;
    }
    if |sanitized| > MAX_NAME_BYTES {
      sanitized := sanitized[..MAX_NAME_BYTES];
    }
    assert sanitized == Sanitized(fileName);
    SanitizedIsSafe(fileName);
  }

  /** The position of the dot that starts the extension; `|name|` when there is none.
      A leading dot starts no extension. */
  function ExtensionAt(name: string, i: nat): nat
    requires i <= |name|
  {
    if i <= 1 then |name| else if name[i - 1] == '.' then i - 1 else ExtensionAt(name, i - 1)
  }

  lemma {:induction false} ExtensionAtBounds(name: string, i: nat)
    requires i <= |name|
    ensures ExtensionAt(name, i) <= |name|
  {
    if i > 1 && name[i - 1] != '.' {
      ExtensionAtBounds(name, i - 1);
    }
  }

  function Stem(name: string): string {
    ExtensionAtBounds(name, |name|);
    name[..ExtensionAt(name, |name|)]
  }

  function Extension(name: string): string {
    ExtensionAtBounds(name, |name|);
    name[ExtensionAt(name, |name|)..]
  }

  lemma {:induction false} ExtensionStarts(name: string, i: nat)
    requires i <= |name|
    ensures var at := ExtensionAt(name, i);
            && (at == |name| || (0 < at < i && name[at] == '.'))
            && forall k | 1 <= k < i :: at == |name| || at < k ==> name[k] != '.'
  {
    if i > 1 && name[i - 1] != '.' {
      ExtensionStarts(name, i - 1);
    }
  }

  /** The extension begins at the last dot, unless that leads the name; without one it is
      empty. */
  lemma ExtensionIs(name: string)
    ensures name == Stem(name) + Extension(name)
    ensures Extension(name) == "" <==> forall k | 1 <= k < |name| :: name[k] != '.'
    ensures Extension(name) != "" ==>
              Stem(name) != "" && Extension(name)[0] == '.' && '.' !in Extension(name)[1..]
  {
    ExtensionAtBounds(name, |name|);
    ExtensionStarts(name, |name|);
  }

  function Numbered(name: string, tag: string): string {
    Stem(name) + "-" + tag + Extension(name)
  }

  function Candidate(name: string, index: nat): string {
    Numbered(name, Decimal(index))
  }

  /** The first candidate from `index` on that is not taken, or the time-stamped name. */
  function FirstFree(taken: set<string>, name: string, index: nat, stamp: string): string
    decreases MAX_PROBE - index
  {
    if index >= MAX_PROBE then Numbered(name, stamp)
    else if Candidate(name, index) !in taken then Candidate(name, index)
    else FirstFree(taken, name, index + 1, stamp)
  }

  function UniqueName(taken: set<string>, name: string, stamp: string): string {
    if name !in taken then name else FirstFree(taken, name, 1, stamp)
  }

  /** `makeFilePathUnique`, in a directory whose entries are `taken`. */
  method MakeFilePathUnique(taken: set<string>, name: string, stamp: string) returns (free: string)
    ensures free == UniqueName(taken, name, stamp)
  {
    if name !in taken {
      return name;
    }
    var index := 1;
    while index < MAX_PROBE
      invariant 1 <= index <= MAX_PROBE
      invariant FirstFree(taken, name, 1, stamp) == FirstFree(taken, name, index, stamp)
    {
      if Candidate(name, index) !in taken {
        return Candidate(name, index);
      }
      index := index + 1;
    }
    free := Numbered(name, stamp);
  }

  lemma {:induction false} FirstFreeIs(taken: set<string>, name: string, index: nat, k: nat, stamp: string)
    requires 1 <= index <= k <= 10000 && forall i | index <= i < k :: Candidate(name, i) in taken
    requires k < 10000 ==> Candidate(name, k) !in taken
    ensures FirstFree(taken, name, index, stamp) == if k < 10000 then Candidate(name, k) else Numbered(name, stamp)
    decreases k - index
  {
    hide Candidate, Numbered;
    if index < k {
      FirstFreeIs(taken, name, index + 1, k, stamp);
    }
  }

  /** Which name is chosen: the name itself if it is free, else the first free one of
      `stem-1.ext`, `stem-2.ext`, ... up to 9999, else the time-stamped one. */
  lemma UniqueNameFirst(taken: set<string>, name: string, k: nat, stamp: string)
    requires 1 <= k <= 10000 && forall i | 1 <= i < k :: Stem(name) + "-" + Decimal(i) + Extension(name) in taken
    requires k < 10000 ==> Stem(name) + "-" + Decimal(k) + Extension(name) !in taken
    ensures UniqueName(taken, name, stamp)
            == if name !in taken then name
               else if k < 10000 then Stem(name) + "-" + Decimal(k) + Extension(name)
               else Stem(name) + "-" + stamp + Extension(name)
  {
    forall i | 1 <= i < k ensures Candidate(name, i) in taken {
      assert Candidate(name, i) == Stem(name) + "-" + Decimal(i) + Extension(name);
    }
    FirstFreeIs(taken, name, 1, k, stamp);
  }

  lemma CandidateInjective(name: string, i: nat, j: nat)
    requires Candidate(name, i) == Candidate(name, j)
    ensures i == j
  {
    var s, e := Stem(name), Extension(name);
    var a, b := Candidate(name, i), Candidate(name, j);
    assert a[|s| + 1..|a| - |e|] == Decimal(i);
    assert b[|s| + 1..|b| - |e|] == Decimal(j);
    DecimalInjective(i, j);
  }

  lemma CandidateIsLonger(name: string, i: nat)
    ensures |Candidate(name, i)| > |name|
  {
    ExtensionAtBounds(name, |name|);
    assert name == Stem(name) + Extension(name);
  }

  /** Pigeonhole: the name and its first `k - 1` candidates are `k` different entries. */
  lemma {:induction false} OccupiedCount(taken: set<string>, name: string, k: nat)
    requires k > 0 && name in taken
    requires forall i | 1 <= i < k :: Candidate(name, i) in taken
    ensures |taken| >= k
  {
    if k > 1 {
      var c := Candidate(name, k - 1);
      CandidateIsLonger(name, k - 1);
      forall i | 1 <= i < k - 1
        ensures Candidate(name, i) in taken - {c}
      {
        if Candidate(name, i) == c {
          CandidateInjective(name, i, k - 1);
        }
      }
      OccupiedCount(taken - {c}, name, k - 1);
    } else {
      assert taken >= {name};
      assert |taken - {name}| == |taken| - 1;
    }
  }

  lemma {:induction false} FirstFreeTaken(taken: set<string>, name: string, index: nat, stamp: string)
    requires index <= MAX_PROBE
    ensures FirstFree(taken, name, index, stamp) in taken <==>
            (forall i | index <= i < MAX_PROBE :: Candidate(name, i) in taken) && Numbered(name, stamp) in taken
    decreases MAX_PROBE - index
  {
    hide Candidate, Numbered;
    if index < MAX_PROBE {
      FirstFreeTaken(taken, name, index + 1, stamp);
    }
  }

  /** The probe fails only when all ten thousand names and the fallback exist: with fewer
      entries than that in the directory the answer is always free. */
  lemma UniqueNameIsFree(taken: set<string>, name: string, stamp: string)
    ensures UniqueName(taken, name, stamp) in taken <==>
            && name in taken
            && (forall i | 1 <= i < MAX_PROBE :: Candidate(name, i) in taken)
            && Numbered(name, stamp) in taken
    ensures |taken| < MAX_PROBE ==> UniqueName(taken, name, stamp) !in taken
  {
    FirstFreeTaken(taken, name, 1, stamp);
    if UniqueName(taken, name, stamp) in taken {
      OccupiedCount(taken, name, MAX_PROBE);
    }
  }

  /** An ordinary file name of any length. */
  predicate Plain(name: string) {
    name != "" && name != "." && name != ".." && forall c <- name :: !Forbidden(c)
  }

  lemma CandidatePlain(name: string, i: nat)
    requires SafeName(name)
    ensures Plain(Candidate(name, i))
  {
    DecimalDenotes(i);
    ExtensionAtBounds(name, |name|);
    var c := Candidate(name, i);
    assert c[|Stem(name)|] == '-';
    assert forall x <- Stem(name) :: x in name;
    assert forall x <- Extension(name) :: x in name;
  }

  lemma {:induction false} FirstFreeEarly(taken: set<string>, name: string, index: nat, k: nat, stamp: string)
    requires index <= k < MAX_PROBE && Candidate(name, k) !in taken && SafeName(name)
    ensures Plain(FirstFree(taken, name, index, stamp))
    decreases k - index
  {
    hide Plain, SafeName, Numbered, Candidate;
    CandidatePlain(name, index);
    if index < k && Candidate(name, index) in taken {
      FirstFreeEarly(taken, name, index + 1, k, stamp);
    }
  }

  /** In a directory of fewer entries than probes the chosen name is ordinary, and it is the
      name asked for exactly when that is free. */
  lemma UniqueNamePlain(taken: set<string>, name: string, stamp: string)
    requires SafeName(name) && |taken| < MAX_PROBE
    ensures Plain(UniqueName(taken, name, stamp)) && UniqueName(taken, name, stamp) !in taken
    ensures UniqueName(taken, name, stamp) == name <==> name !in taken
  {
    UniqueNameIsFree(taken, name, stamp);
    if name in taken {
      if forall i | 1 <= i < MAX_PROBE :: Candidate(name, i) in taken {
        OccupiedCount(taken, name, MAX_PROBE);
      }
      var k :| 1 <= k < MAX_PROBE && Candidate(name, k) !in taken;
      FirstFreeEarly(taken, name, 1, k, stamp);
    }
  }
}
