/** Which texts the receiver of a folder accepts and where they lead, told character by character and name by
    name instead of through path objects (`resolveIncomingFolderEntryPath` of src/main/app_runtime.cpp). */
module FolderWalk {
  import opened Prelude
  import opened FolderPaths

  // ---- Texts and names ----

  predicate IsSlash(c: char) { c in {'/', '\\'} }

  /** At least one slash or backslash. */
  ghost predicate IsGap(gap: string) {
    gap != "" && forall k | 0 <= k < |gap| :: IsSlash(gap[k])
  }

  ghost predicate HasNoSlash(name: string) {
    forall k | 0 <= k < |name| :: !IsSlash(name[k])
  }

  /** Names with gaps between them; only the last name may be empty. */
  ghost predicate AreSpelled(names: seq<string>, gaps: seq<string>) {
    && |names| == |gaps| + 1
    && (forall i | 0 <= i < |gaps| :: IsGap(gaps[i]) && names[i] != "")
    && (forall i | 0 <= i < |names| :: HasNoSlash(names[i]))
  }

  function Spelled(names: seq<string>, gaps: seq<string>): string
    requires |names| == |gaps| + 1
  {
    if gaps == [] then names[0] else names[0] + gaps[0] + Spelled(names[1..], gaps[1..])
  }

  lemma {:induction false} GapIsSkipped(gap: string, rest: string)
    requires forall k | 0 <= k < |gap| :: IsSlash(gap[k])
    ensures Names(gap + rest) == Names(rest)
  {
    if gap == "" {
      assert gap + rest == rest;
    } else {
      NameLengthIs(gap + rest, 0);
      assert (gap + rest)[1..] == gap[1..] + rest;
      GapIsSkipped(gap[1..], rest);
    }
  }

  lemma {:induction false} NameThenGap(name: string, gap: string, rest: string)
    requires name != "" && HasNoSlash(name) && IsGap(gap)
    ensures Names(name + gap + rest) == [name] + Names(rest)
  {
    var text := name + gap + rest;
    NameLengthIs(text, |name|);
    assert text[..|name|] == name && text[|name| + 1..] == gap[1..] + rest;
    GapIsSkipped(gap[1..], rest);
  }

  /** A text is read as the names it is spelled from, whatever slashes and backslashes are between them. */
  lemma {:induction false} SpelledIsRead(names: seq<string>, gaps: seq<string>)
    requires AreSpelled(names, gaps)
    ensures Names(Spelled(names, gaps)) == names
    decreases |gaps|
  {
    if gaps == [] {
      NameLengthIs(names[0], |names[0]|);
    } else {
      assert AreSpelled(names[1..], gaps[1..]);
      NameThenGap(names[0], gaps[0], Spelled(names[1..], gaps[1..]));
      SpelledIsRead(names[1..], gaps[1..]);
      assert names == [names[0]] + names[1..];
    }
  }

  lemma {:induction false} NamesHaveNoSlash(text: string)
    ensures Names(text) != [] && forall name <- Names(text) :: HasNoSlash(name)
    decreases |text|
  {
    var n := NameLength(text);
    NameHasNoSlash(text);
    if n == 0 < |text| {
      NamesHaveNoSlash(text[1..]);
    } else if n < |text| {
      NamesHaveNoSlash(text[n + 1..]);
    }
  }

  lemma {:induction false} NameHasNoSlash(text: string)
    ensures HasNoSlash(text[..NameLength(text)])
  {
    if text != "" && !IsSeparator(text[0]) {
      NameHasNoSlash(text[1..]);
      assert text[..NameLength(text)] == [text[0]] + text[1..][..NameLength(text[1..])];
    }
  }

  // ---- Walking ----

  predicate IsDots(name: string) { name in {"", ".", ".."} }

  /** Where the names lead from a directory: one step in, one step out or nowhere; `None` if they lead out of it.
      At the root of a drive a step out stays there. */
  function Walk(names: seq<string>, atDriveRoot: bool): Option<seq<string>> {
    if names == [] then Some([])
    else
      var before, name := Walk(names[..|names| - 1], atDriveRoot), names[|names| - 1];
      if before.None? || name in {"", "."} then before
      else if name != ".." then Some(before.value + [name])
      else if before.value != [] then Some(before.value[..|before.value| - 1])
      else if atDriveRoot then Some([])
      else None
  }

  ghost predicate AreNames(names: seq<string>) {
    forall name <- names :: !IsDots(name)
  }

  lemma {:induction false} WalkGivesNames(names: seq<string>, atDriveRoot: bool)
    ensures Walk(names, atDriveRoot).Some? ==> AreNames(Walk(names, atDriveRoot).value)
    ensures Walk(names, true).Some?
  {
    if names != [] {
      WalkGivesNames(names[..|names| - 1], atDriveRoot);
    }
  }

  /** The normal form keeps what the walk arrives at; a walk that leads out shows as a ".." in front. */
  lemma {:induction false} FoldIsWalk(rooted: bool, names: seq<string>)
    ensures var (kept, _), walked := Fold(rooted, names), Walk(names, rooted);
            if walked.Some? then kept == walked.value else kept != [] && kept[0] == ".."
  {
    if names != [] {
      var before := Walk(names[..|names| - 1], rooted);
      FoldIsWalk(rooted, names[..|names| - 1]);
      WalkGivesNames(names[..|names| - 1], rooted);
      if before.Some? && before.value != [] { assert !IsDots(before.value[|before.value| - 1]); }
    }
  }

  /** The normal form ends with a separator if the text ends with a name that is none. */
  lemma {:induction false} FoldEnds(rooted: bool, names: seq<string>)
    requires names != [] && Walk(names, rooted).Some?
    ensures Fold(rooted, names).1 <==> IsDots(names[|names| - 1])
  {
    var before := Walk(names[..|names| - 1], rooted);
    FoldIsWalk(rooted, names[..|names| - 1]);
    WalkGivesNames(names[..|names| - 1], rooted);
    if before.value != [] { assert !IsDots(before.value[|before.value| - 1]); }
  }

  // ---- Texts without a drive or share ----

  /** A letter and a colon, or two slashes and a name. */
  predicate NamesDriveOrShare(text: string) {
    || (|text| >= 2 && ('a' <= text[0] <= 'z' || 'A' <= text[0] <= 'Z') && text[1] == ':')
    || (|text| >= 3 && IsSlash(text[0]) && IsSlash(text[1]) && !IsSlash(text[2]))
  }

  lemma {:induction false} NoDriveOrShare(text: string)
    ensures RootNameLength(text) == 0 <==> !NamesDriveOrShare(text)
  {
  }

  /** The walk ends with a name, and no name it keeps has a colon. */
  ghost predicate WalksTo(names: seq<string>, atDriveRoot: bool, end: seq<string>) {
    && Walk(names, atDriveRoot) == Some(end) && names != [] && !IsDots(names[|names| - 1])
    && forall name <- end :: ':' !in name
  }

  lemma {:induction false} NormalIsWalk(rooted: bool, names: seq<string>)
    requires names != []
    ensures var relative := Normal(Path("", rooted, names));
      && relative.rootName == "" && relative.rooted == rooted
      && (IsSafeRelativePath(relative) && relative.components != [] <==> exists end :: WalksTo(names, rooted, end))
      && (forall end | WalksTo(names, rooted, end) :: relative.components == end)
      && (relative.components == [] <==> rooted && Walk(names, rooted) == Some([]))
  {
    var relative, walked, last := Normal(Path("", rooted, names)), Walk(names, rooted), |names| - 1;
    FoldIsWalk(rooted, names);
    WalkGivesNames(names, rooted);
    if walked.None? {
      assert relative.components[0] == "..";
      assert !IsSafeComponent(relative.components[0]);
    } else {
      FoldEnds(rooted, names);
      if IsDots(names[last]) {
        assert relative.components != [] ==> !IsSafeComponent(relative.components[|relative.components| - 1]);
      } else {
        KeptIsSafeIff(walked.value);
        assert IsSafeRelativePath(relative) ==> WalksTo(names, rooted, walked.value);
      }
    }
  }

  lemma {:induction false} KeptIsSafeIff(kept: seq<string>)
    requires AreNames(kept)
    ensures (forall i | 0 <= i < |kept| :: IsSafeComponent(kept[i])) <==> (forall name <- kept :: ':' !in name)
  {
    forall i | 0 <= i < |kept| ensures IsSafeComponent(kept[i]) <==> ':' !in kept[i] { assert !IsDots(kept[i]); }
  }

  /** A text without drive, share or slash in front is accepted exactly if it is not too long, walking its names
      from the target root never leads out and ends with a name, and no name of the way has a colon; it is resolved
      to where the walk ends. */
  lemma {:induction false} RelativeTextLeads(root: Path, text: string)
    requires IsTargetRoot(root) && text != "" && !NamesDriveOrShare(text) && !IsSlash(text[0])
    ensures Resolve(root, text).Some? <==> |text| <= 32768 && exists end :: WalksTo(Names(text), false, end)
    ensures forall end | Resolve(root, text).Some? && WalksTo(Names(text), false, end) ::
              Resolve(root, text) == Some(root.(components := root.components + end))
  {
    var names := Names(text);
    NoDriveOrShare(text);
    NamesHaveNoSlash(text);
    assert text[0..] == text;
    assert Parse(text) == Path("", false, names);
    NormalIsWalk(false, names);
    var relative := Normal(Parse(text));
    if |text| <= 32768 && IsSafeRelativePath(relative) {
      assert relative.Elements() == relative.components;
      AppendsPlain(root, relative.components);
    }
  }

  lemma {:induction false} AppendsPlain(root: Path, components: seq<string>)
    requires IsTargetRoot(root) && components != [] && forall i | 0 <= i < |components| :: IsSafeComponent(components[i])
    ensures var target := Normal(Append(root, Path("", false, components)));
            target == root.(components := root.components + components) && root.Elements() <= target.Elements()
  {
    var target := root.(components := root.components + components);
    NormalOfPlain(target);
    assert target.Elements() == root.Elements() + components;
  }

  /** A text that names a drive is refused. */
  lemma {:induction false} DriveIsRefused(root: Path, text: string)
    requires |text| >= 2 && ('a' <= text[0] <= 'z' || 'A' <= text[0] <= 'Z') && text[1] == ':'
    ensures Resolve(root, text).None?
  {
    assert ':' in text[..2] by { assert text[..2][1] == ':'; }
    assert !IsSafeComponent(Normal(Parse(text)).rootName);
  }

  lemma {:induction false} SlashedIsParsed(text: string)
    requires text != "" && !NamesDriveOrShare(text) && IsSlash(text[0])
    requires exists k :: 0 <= k < |text| && !IsSlash(text[k])
    ensures Parse(text) == Path("", true, Names(text)) && Names(text) != []
  {
    NoDriveOrShare(text);
    NamesHaveNoSlash(text);
    assert text[0..] == text;
    var k :| 0 <= k < |text| && !IsSlash(text[k]);
    assert text[k] in text && !IsSeparator(text[k]);
  }

  lemma {:induction false} AppendsSlashed(root: Path, components: seq<string>)
    requires IsTargetRoot(root) && forall i | 0 <= i < |components| :: IsSafeComponent(components[i])
    ensures var target := Normal(Append(root, Path("", true, components)));
      target == root.(components := components) && (root.Elements() <= target.Elements() <==> root.components <= components)
  {
    NormalKeepsRoot(root, root.(components := components));
  }

  /** A text that starts with a slash is walked from the root of the target's drive: it is accepted exactly if the
      walk leads into the target root in the same way, or if the target is that root and the walk ends there. */
  lemma {:induction false} SlashedTextLeads(root: Path, text: string)
    requires IsTargetRoot(root) && text != "" && !NamesDriveOrShare(text) && IsSlash(text[0])
    requires exists k :: 0 <= k < |text| && !IsSlash(text[k])
    ensures Resolve(root, text).Some? <==>
              && |text| <= 32768
              && ((exists end :: WalksTo(Names(text), true, end) && root.components <= end)
                  || (Walk(Names(text), true) == Some([]) && root.components == []))
    ensures forall end | Resolve(root, text).Some? && WalksTo(Names(text), true, end) ::
              Resolve(root, text) == Some(root.(components := end))
  {
    SlashedIsParsed(text);
    NormalIsWalk(true, Names(text));
    FoldIsWalk(true, Names(text));
    WalkGivesNames(Names(text), true);
    var relative := Normal(Parse(text));
    if IsSafeRelativePath(relative) { AppendsSlashed(root, relative.components); }
  }

  /** A text that names a share is accepted exactly if it is the share of the target root and nothing more; it leads
      to the root itself. */
  lemma {:induction false} ShareLeads(root: Path, text: string)
    requires IsTargetRoot(root) && |text| >= 3 && IsSlash(text[0]) && IsSlash(text[1]) && !IsSlash(text[2])
    ensures Resolve(root, text)
         == if text == root.rootName && HasNoSlash(text[2..]) && |text| <= 32768 && ':' !in text then Some(root) else None
  {
    var n := 2 + NameLength(text[2..]);
    var relative := Normal(Parse(text));
    NameHasNoSlash(text[2..]);
    assert RootNameLength(text) == n;
    if n == |text| {
      assert text[..n] == text && text[n..] == "";
      assert text[2..][..n - 2] == text[2..];
      assert relative == Path(text, false, []);
      assert root.components + [] == root.components;
      FoldKeepsNames(true, root.components);
      if text != root.rootName { assert relative.Elements()[0] != root.Elements()[0]; }
    } else {
      assert text[n..][0] == text[n] == text[2..][n - 2];
      assert relative.rooted && relative.rootName != "";
    }
  }
}
