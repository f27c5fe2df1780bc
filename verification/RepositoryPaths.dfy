/** Repository paths: exactly which texts are accepted, and why none of them leads out of the repository. */
module RepositoryPaths {
  import opened Tables
  import opened Execution

  // ---------- On the characters of the text ----------

  predicate Separator(c: char) {
    c == '/' || c == '\\'
  }

  // This word stands at i between separators or ends.
  predicate StandsAt(s: string, i: int, word: string) {
    && 0 <= i && i + |word| <= |s| && s[i..i + |word|] == word
    && (i == 0 || Separator(s[i - 1]))
    && (i + |word| == |s| || Separator(s[i + |word|]))
  }

  predicate Acceptable(s: string) {
    && (exists i :: 0 <= i < |s| && !Whitespace(s[i]))
    && ByteLength(s) <= 512
    && !Separator(s[0])
    && !StandsAt(s, 0, ".")
    && (forall i :: 0 <= i < |s| ==> !StandsAt(s, i, ".."))
  }

  // ---------- Components are what stands between slashes ----------

  lemma {:induction false} FirstComponent(s: string) returns (k: nat)
    ensures k <= |s| && Split(s, '/')[0] == s[..k] && (k == |s| || s[k] == '/')
  {
    if s == "" || s[0] == '/' {
      k := 0;
    } else {
      k := FirstComponent(s[1..]);
      assert [s[0]] + s[1..][..k] == s[..k + 1];
      k := k + 1;
    }
  }

  predicate StartsWith(s: string, word: string) {
    |word| <= |s| && s[..|word|] == word && (|word| == |s| || s[|word|] == '/')
  }

  lemma StartsFirst(s: string, word: string)
    requires Free(word, '/')
    ensures Split(s, '/')[0] == word <==> StartsWith(s, word)
  {
    var k := FirstComponent(s);
    var part := Split(s, '/')[0];
    assert Free(part, '/');
    assert StartsWith(s, word) ==> forall j :: 0 <= j < |word| ==> word[j] == s[j];
  }

  // Some later component is this word.
  predicate LaterComponent(s: string, word: string) {
    exists i :: 0 < i < |Split(s, '/')| && Split(s, '/')[i] == word
  }

  // The word stands after some slash.
  predicate LaterAt(s: string, word: string) {
    exists j :: 0 < j <= |s| && s[j - 1] == '/' && StartsWith(s[j..], word)
  }

  lemma LaterShifts(s: string, word: string)
    requires s != ""
    ensures LaterAt(s, word) <==> (LaterAt(s[1..], word) || (s[0] == '/' && StartsWith(s[1..], word)))
  {
    if LaterAt(s, word) {
      var j :| 0 < j <= |s| && s[j - 1] == '/' && StartsWith(s[j..], word);
      if j > 1 { assert s[1..][j - 1 - 1] == '/' && s[1..][j - 1..] == s[j..]; }
    }
    if LaterAt(s[1..], word) {
      var j :| 0 < j <= |s[1..]| && s[1..][j - 1] == '/' && StartsWith(s[1..][j..], word);
      assert s[j + 1 - 1] == '/' && s[j + 1..] == s[1..][j..];
    }
    if s[0] == '/' && StartsWith(s[1..], word) { assert s[1 - 1] == '/'; }
  }

  lemma LaterSplits(s: string, word: string)
    requires s != ""
    ensures LaterComponent(s, word) <==>
      (LaterComponent(s[1..], word) || (s[0] == '/' && Split(s[1..], '/')[0] == word))
  {
    var parts, rest := Split(s, '/'), Split(s[1..], '/');
    if s[0] == '/' {
      assert forall i :: 0 <= i < |rest| ==> parts[i + 1] == rest[i];
    } else {
      assert forall i :: 0 < i < |rest| ==> parts[i] == rest[i];
    }
  }

  lemma {:induction false} LaterExact(s: string, word: string)
    requires Free(word, '/')
    ensures LaterComponent(s, word) <==> LaterAt(s, word)
  {
    if s != "" {
      LaterExact(s[1..], word);
      LaterShifts(s, word);
      LaterSplits(s, word);
      StartsFirst(s[1..], word);
    }
  }

  // ---------- Exactly which texts are accepted ----------

  predicate Dots(word: string) {
    word == "." || word == ".."
  }

  // The same text with its backslashes turned.
  predicate Turned(s: string, t: string) {
    |t| == |s| && forall i :: 0 <= i < |s| ==> t[i] == if s[i] == '\\' then '/' else s[i]
  }

  // Turning backslashes makes no word of dots and unmakes none.
  lemma SameDots(s: string, t: string, word: string)
    requires Dots(word) && Turned(s, t)
    ensures s == word <==> t == word
  {
    if t == word { assert forall i :: 0 <= i < |s| ==> s[i] == t[i]; }
  }

  lemma StandsTurned(s: string, t: string, i: nat, word: string)
    requires Dots(word) && i + |word| <= |s| && Turned(s, t)
    ensures StandsAt(s, i, word) <==> (i == 0 || t[i - 1] == '/') && StartsWith(t[i..], word)
  {
    var n := |word|;
    assert t[i..][..n] == t[i..i + n];
    assert Turned(s[i..i + n], t[i..i + n]);
    SameDots(s[i..i + n], t[i..i + n], word);
    if i + n < |s| { assert t[i..][n] == t[i + n]; }
  }

  // Where a word of dots stands, seen on the text with forward slashes.
  lemma StandsSlashed(s: string, i: nat, word: string)
    requires Dots(word) && i <= |s|
    ensures StandsAt(s, i, word) <==> (i == 0 || Slashes(s)[i - 1] == '/') && StartsWith(Slashes(s)[i..], word)
  {
    if i + |word| <= |s| { StandsTurned(s, Slashes(s), i, word); }
  }

  lemma StandsLater(s: string)
    ensures (exists i :: 0 <= i < |s| && StandsAt(s, i, "..")) <==>
      (StartsWith(Slashes(s), "..") || LaterAt(Slashes(s), ".."))
  {
    var t := Slashes(s);
    assert t[0..] == t;
    StandsSlashed(s, 0, "..");
    if i :| 0 <= i < |s| && StandsAt(s, i, "..") {
      StandsSlashed(s, i, "..");
    }
    if LaterAt(t, "..") {
      var j :| 0 < j <= |t| && t[j - 1] == '/' && StartsWith(t[j..], "..");
      StandsSlashed(s, j, "..");
      assert StandsAt(s, j, "..");
    }
  }

  predicate HasUp(s: string) {
    exists i :: 0 <= i < |Split(s, '/')| && Split(s, '/')[i] == ".."
  }

  lemma UpComponents(s: string)
    ensures HasUp(s) <==> (StartsWith(s, "..") || LaterAt(s, ".."))
  {
    StartsFirst(s, "..");
    LaterExact(s, "..");
    assert HasUp(s) <==> (Split(s, '/')[0] == ".." || LaterComponent(s, ".."));
  }

  lemma LeadingDot(s: string)
    ensures Split(Slashes(s), '/')[0] == "." <==> StandsAt(s, 0, ".")
  {
    assert Slashes(s)[0..] == Slashes(s);
    StandsSlashed(s, 0, ".");
    StartsFirst(Slashes(s), ".");
  }

  /** A path is accepted exactly when it is not blank, has at most 512 bytes, starts with no separator and no "."
      component, and has no ".." between separators or ends; then only its backslashes change. */
  lemma AcceptedExactly(s: string)
    ensures NormalizedRepoPath(s).Some? <==> Acceptable(s)
    ensures NormalizedRepoPath(s).Some? ==>
      Turned(s, NormalizedRepoPath(s).value)
  {
    TrimBlank(s);
    LeadingDot(s);
    UpComponents(Slashes(s));
    StandsLater(s);
    assert s != "" ==> (Slashes(s)[0] == '/' <==> Separator(s[0]));
  }

  // ---------- No accepted path leads out ----------

  // Where a walk from the repository's root has come to.
  datatype Place = Left | Inside(names: seq<string>)

  function Go(at: Place, part: string): Place {
    match at
    case Left => Left
    case Inside(names) =>
      if part == ".." then (if names == [] then Left else Inside(names[..|names| - 1]))
      else if part == "" || part == "." then at
      else Inside(names + [part])
  }

  // Component by component; a walk that has left does not come back.
  function Walk(at: Place, parts: seq<string>): Place
    decreases parts
  {
    if parts == [] then at else Walk(Go(at, parts[0]), parts[1..])
  }

  predicate StaysInside(path: string) {
    (path == "" || path[0] != '/') && Walk(Inside([]), Split(path, '/')).Inside?
  }

  lemma {:induction false} WalkStays(names: seq<string>, parts: seq<string>)
    requires forall i :: 0 <= i < |parts| ==> parts[i] != ".."
    ensures Walk(Inside(names), parts).Inside?
    decreases parts
  {
    if parts != [] {
      assert parts[0] != "..";
      WalkStays(Go(Inside(names), parts[0]).names, parts[1..]);
    }
  }

  lemma UpStands(s: string)
    requires StartsWith(s, "..") || LaterAt(s, "..")
    ensures exists i :: 0 <= i < |s| && StandsAt(s, i, "..")
  {
    if StartsWith(s, "..") {
      assert StandsAt(s, 0, "..");
    } else {
      var j :| 0 < j <= |s| && s[j - 1] == '/' && StartsWith(s[j..], "..");
      assert s[j..][..2] == s[j..j + 2];
      assert StandsAt(s, j, "..");
    }
  }

  lemma AcceptableStays(s: string)
    requires Acceptable(s)
    ensures StaysInside(s)
  {
    UpComponents(s);
    if HasUp(s) { UpStands(s); }
    WalkStays([], Split(s, '/'));
  }

  /** Walking an accepted path component by component, as it was given or as it is normalized, never leaves the
      repository. */
  lemma NeverLeaves(s: string)
    requires NormalizedRepoPath(s).Some?
    ensures StaysInside(s) && StaysInside(NormalizedRepoPath(s).value)
  {
    AcceptedExactly(s);
    AcceptableStays(s);
    NormalizedStable(s);
    AcceptedExactly(NormalizedRepoPath(s).value);
    AcceptableStays(NormalizedRepoPath(s).value);
  }
}
