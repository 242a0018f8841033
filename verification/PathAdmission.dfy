/**
 Which request paths the server serves: the tests of server.c:373-393.
 */
module PathAdmission {
  import opened CText
  import opened PercentDecode

  /**
   `&(file[fileLen - 3])` compared with "/..": for a name shorter than three bytes the pointer
   lies before the name, so `before`, whatever memory precedes it, is read too.
   */
  predicate TailIsDotDot(before: string, file: string)
    requires |before| >= 2 && file != ""
  {
    var memory := before + file;
    memory[|memory| - 3..] == "/.."
  }

  /** The five tests of server.c:387-389. */
  predicate Rejected(before: string, file: string)
    requires |before| >= 2 && file != ""
  {
    || file[0] == '/'
    || file == ".."
    || "../" <= file
    || Contains(file, "/../")
    || TailIsDotDot(before, file)
  }

  // ---- What the tests are for ----

  /** The position of the first '/', or the length. */
  function Slash(s: string): (k: nat)
    ensures k <= |s| && (k < |s| ==> s[k] == '/')
    ensures forall i :: 0 <= i < k ==> s[i] != '/'
  {
    if s == "" || s[0] == '/' then 0 else 1 + Slash(s[1..])
  }

  /** The components of a path. */
  function Split(s: string): seq<string>
    decreases |s|
  {
    var k := Slash(s);
    if k == |s| then [s] else [s[..k]] + Split(s[k + 1..])
  }

  predicate Admissible(file: string) {
    file != "" && file[0] != '/' && ".." !in Split(file)
  }

  /** A ".." component shows as one of four shapes. */
  ghost predicate ShowsDotDot(s: string) {
    || s == ".."
    || "../" <= s
    || Contains(s, "/../")
    || (|s| >= 3 && s[|s| - 3..] == "/..")
  }

  lemma {:induction false} DotDotShows(s: string)
    ensures ".." in Split(s) <==> ShowsDotDot(s)
    decreases |s|
  {
    var k := Slash(s);
    if k < |s| {
      var t := s[k + 1..];
      DotDotShows(t);
      assert Split(s) == [s[..k]] + Split(t);
      FirstIsDotDot(s, k);
      InnerShape(s, k);
      EndShape(s, k);
    } else {
      NoSlashNoShape(s);
    }
  }

  lemma NoSlashNoShape(s: string)
    requires Slash(s) == |s|
    ensures ShowsDotDot(s) ==> s == ".."
  {
    StartsByBytes(s);
    if |s| >= 3 {
      EndsByBytes(s);
    }
    forall i: nat
      ensures !OccursAt(s, "/../", i)
    {
      OccursByBytes(s, i);
    }
  }

  lemma EndsByBytes(s: string)
    requires |s| >= 3
    ensures s[|s| - 3..] == "/.." <==> s[|s| - 3] == '/' && s[|s| - 2] == '.' && s[|s| - 1] == '.'
  {
    assert s[|s| - 3..] == [s[|s| - 3], s[|s| - 2], s[|s| - 1]];
  }

  lemma IsDotDotByBytes(t: string)
    ensures t == ".." <==> |t| == 2 && t[0] == '.' && t[1] == '.'
  {
  }

  lemma FirstIsDotDot(s: string, k: nat)
    requires k == Slash(s) < |s|
    ensures s[..k] == ".." <==> "../" <= s
  {
    IsDotDotByBytes(s[..k]);
    StartsByBytes(s);
  }

  lemma OccursByBytes(s: string, i: nat)
    ensures OccursAt(s, "/../", i) <==>
              i + 4 <= |s| && s[i] == '/' && s[i + 1] == '.' && s[i + 2] == '.' && s[i + 3] == '/'
  {
    if i + 4 <= |s| {
      assert s[i..i + 4] == [s[i], s[i + 1], s[i + 2], s[i + 3]];
    }
  }

  lemma StartsByBytes(t: string)
    ensures "../" <= t <==> |t| >= 3 && t[0] == '.' && t[1] == '.' && t[2] == '/'
  {
  }

  /** "/../" begins at the first '/', or lies in the rest. */
  lemma InnerShapeAt(s: string, k: nat, i: nat)
    requires k == Slash(s) < |s| && OccursAt(s, "/../", i)
    ensures i >= k && (i == k ==> "../" <= s[k + 1..])
    ensures i > k ==> i - k - 1 <= |s[k + 1..]| && OccursAt(s[k + 1..], "/../", i - k - 1)
  {
    OccursByBytes(s, i);
    if i == k {
      StartsByBytes(s[k + 1..]);
    } else {
      OccursByBytes(s[k + 1..], i - k - 1);
    }
  }

  lemma OccursBehind(front: string, t: string, pattern: string, i: nat)
    requires OccursAt(t, pattern, i)
    ensures OccursAt(front + t, pattern, |front| + i)
  {
    OccursInSum(front, t, pattern, |front| + i);
  }

  lemma OuterShapeAt(s: string, k: nat, pattern: string, i: nat)
    requires k < |s| && OccursAt(s[k + 1..], pattern, i)
    ensures OccursAt(s, pattern, k + 1 + i)
  {
    assert s == s[..k + 1] + s[k + 1..];
    OccursBehind(s[..k + 1], s[k + 1..], pattern, i);
  }

  lemma ShapeInRest(s: string, k: nat, pattern: string)
    requires k < |s| && Contains(s[k + 1..], pattern)
    ensures Contains(s, pattern)
  {
    var i: nat :| i <= |s[k + 1..]| && OccursAt(s[k + 1..], pattern, i);
    OuterShapeAt(s, k, pattern, i);
  }

  lemma InnerShape(s: string, k: nat)
    requires k == Slash(s) < |s|
    ensures Contains(s, "/../") <==> "../" <= s[k + 1..] || Contains(s[k + 1..], "/../")
  {
    if "../" <= s[k + 1..] {
      StartsByBytes(s[k + 1..]);
      OccursByBytes(s, k);
    } else if Contains(s[k + 1..], "/../") {
      ShapeInRest(s, k, "/../");
    } else if Contains(s, "/../") {
      var i: nat :| i <= |s| && OccursAt(s, "/../", i);
      InnerShapeAt(s, k, i);
    }
  }

  /** "/.." ends the whole exactly when it ends the rest or is the rest with its '/'. */
  lemma EndShape(s: string, k: nat)
    requires k == Slash(s) < |s|
    ensures (|s| >= 3 && s[|s| - 3..] == "/..") <==>
              (s[k + 1..] == ".." || (|s[k + 1..]| >= 3 && s[k + 1..][|s| - k - 4..] == "/.."))
  {
    var t := s[k + 1..];
    IsDotDotByBytes(t);
    if |s| >= 3 {
      EndsByBytes(s);
    }
    if |t| >= 3 {
      EndsByBytes(t);
    }
  }

  /**
   The five tests reject exactly the names that are not relative or have a ".." component, and the
   bytes that lie before the name in memory never matter: the name either follows the '/' of the
   path or is the constant "./".
   */
  lemma TestsAdmitExactly(before: string, file: string)
    requires |before| >= 2 && file != "" && (before[|before| - 1] == '/' || file == "./")
    ensures !Rejected(before, file) <==> Admissible(file)
  {
    DotDotShows(file);
    TailMeansSuffix(before, file);
  }

  lemma TailMeansSuffix(before: string, file: string)
    requires |before| >= 2 && file != "" && (before[|before| - 1] == '/' || file == "./")
    ensures TailIsDotDot(before, file) <==> file == ".." || (|file| >= 3 && file[|file| - 3..] == "/..")
  {
    var memory := before + file;
    var tail := memory[|memory| - 3..];
    assert tail[1] == memory[|memory| - 2] && tail[2] == memory[|memory| - 1] && tail[0] == memory[|memory| - 3];
    if |file| >= 3 {
      assert tail == file[|file| - 3..];
    } else if |file| == 2 {
      assert tail == [before[|before| - 1]] + file;
    } else {
      assert tail == before[|before| - 2..] + file;
    }
  }

  // ---- The walk that an admitted name describes ----

  function Move(component: string): int {
    if component == ".." then -1 else if component == "" || component == "." then 0 else 1
  }

  /** The lowest depth reached when walking the components from depth `d`. */
  function Lowest(components: seq<string>, d: int): int {
    if components == [] then d
    else
      var rest := Lowest(components[1..], d + Move(components[0]));
      if rest < d then rest else d
  }

  /** A component ".." leads one level up, a name one down, "." and the empty one nowhere. */
  lemma WalkIs(name: string, rest: seq<string>, d: int)
    requires name !in {"", ".", ".."}
    ensures Lowest([".."] + rest, d) < d
    ensures Lowest([name, ".."] + rest, d) < d <==> Lowest(rest, d) < d
    ensures Lowest(["."] + rest, d) < d <==> Lowest(rest, d) < d
    ensures Lowest([""] + rest, d) < d <==> Lowest(rest, d) < d
  {
    LowestOfFirst("..", rest, d);
    LowestOfFirst("..", rest, d + 1);
    LowestOfFirst(name, [".."] + rest, d);
    LowestOfFirst(".", rest, d);
    LowestOfFirst("", rest, d);
    assert [name, ".."] + rest == [name] + ([".."] + rest);
    LowestIsLow(rest, d - 1);
  }

  lemma LowestOfFirst(component: string, rest: seq<string>, d: int)
    ensures var low := Lowest(rest, d + Move(component)); Lowest([component] + rest, d) == if low < d then low else d
  {
    assert ([component] + rest)[1..] == rest;
  }

  lemma LowestIsLow(components: seq<string>, d: int)
    ensures Lowest(components, d) <= d
  {
  }

  lemma {:induction false} NoDotDotStaysAbove(components: seq<string>, d: int)
    requires ".." !in components
    ensures Lowest(components, d) == d
  {
    if components != [] {
      NoDotDotStaysAbove(components[1..], d + Move(components[0]));
    }
  }

  /** The name that `checkAndSend` opens for a path that starts with '/'. */
  function FileName(path: string): string
    requires path != ""
  {
    var file := CString(Decode(path[1..]));
    if file == "" then "./" else file
  }

  /**
   server.c:373-393 on the buffer `path`, which holds a C string of length `n`: the name to serve,
   or nothing. `stray` is the memory before the buffer, `strayLiteral` that before the constant "./".
   */
  method AdmitPath(path: array<char>, ghost n: nat, stray: string, strayLiteral: string) returns (r: Option<string>)
    requires IsCString(path[..], n) && |stray| >= 2 && |strayLiteral| >= 2
    modifies path
    ensures r.Some? <==> n > 0 && old(path[0]) == '/' && Admissible(FileName(old(path[..n])))
    ensures r.Some? ==> r.value == FileName(old(path[..n])) && Lowest(Split(r.value), 0) == 0
  {
    if path[0] != '/' {
      return None;
    }
    ghost var source := path[..n];
    ghost var d := Decode(source[1..]);
    assert source[1..] == path[1..n];
    StrDecodeInPlace(path, 1, n);
    NameInBuffer(path[..], d);
    var file := CString(path[1..]);
    if path[1] == '\0' {
      r := AdmitFile(strayLiteral, "./");
    } else {
      r := AdmitFile(stray + path[..1], file);
    }
  }

  /** The decoded name, as the C string that begins behind the '/'. */
  lemma NameInBuffer(path: seq<char>, d: string)
    requires |d| + 1 < |path| && path[1..1 + |d|] == d && path[1 + |d|] == '\0'
    ensures CString(path[1..]) == CString(d) && (path[1] == '\0' <==> CString(d) == "")
  {
    assert path[1..][..|d|] == d && path[1..][|d|] == '\0';
    CStringStops(path[1..], |d|);
    assert path[1] == path[1..][0];
  }

  /** server.c:387-393, once the name is decoded. */
  method AdmitFile(before: string, file: string) returns (r: Option<string>)
    requires |before| >= 2 && file != "" && (before[|before| - 1] == '/' || file == "./")
    ensures r == if Admissible(file) then Some(file) else None
    ensures r.Some? ==> Lowest(Split(file), 0) == 0
  {
    TestsAdmitExactly(before, file);
    if Rejected(before, file) {
      return None;
    }
    NoDotDotStaysAbove(Split(file), 0);
    return Some(file);
  }
}
