/** Relative paths of folder transfers: how the sender prints them, how the receiver parses,
    normalises and checks them, and where they land under the target root. Paths follow the
    Windows grammar of `std::filesystem::path`; texts are sequences of UTF-8 code units. */
module FolderPaths {
  import opened Prelude

  const MAX_RELATIVE_PATH_BYTES: nat := 32 * 1024

  /** `rootName` is a drive ("C:") or a share ("//server"), or empty. */
  datatype Path = Path(rootName: string, rooted: bool, components: seq<string>)
  {
    function Elements(): seq<string> {
      (if rootName == "" then [] else [rootName]) + (if rooted then ["/"] else []) + components
    }
  }

  predicate IsSeparator(c: char) { c == '/' || c == '\\' }

  predicate IsFileName(text: string) {
    text != "" && forall k | 0 <= k < |text| :: !IsSeparator(text[k])
  }

  predicate IsSafeComponent(text: string) {
    text != "" && text != "." && text != ".." && ':' !in text
  }

  // ---- Texts ----

  /** The generic text of a relative path: components joined by '/'. */
  function Join(components: seq<string>): string {
    if components == [] then ""
    else if |components| == 1 then components[0]
    else components[0] + "/" + Join(components[1..])
  }

  function NameLength(text: string): (n: nat)
    ensures n <= |text| && (n < |text| ==> IsSeparator(text[n]))
  {
    if text == "" || IsSeparator(text[0]) then 0 else 1 + NameLength(text[1..])
  }

  /** The file names of a text without root; a separator at the end leaves an empty last name,
      and a run of separators counts once. */
  function Names(text: string): seq<string>
    decreases |text|
  {
    var n := NameLength(text);
    if n == |text| then [text]
    else if n == 0 then Names(text[1..])
    else [text[..n]] + Names(text[n + 1..])
  }

  predicate IsLetter(c: char) { 'a' <= c <= 'z' || 'A' <= c <= 'Z' }

  function RootNameLength(text: string): (n: nat)
    ensures n <= |text|
  {
    if |text| >= 2 && IsLetter(text[0]) && text[1] == ':' then 2
    else if |text| >= 3 && IsSeparator(text[0]) && IsSeparator(text[1]) && !IsSeparator(text[2])
    then 2 + NameLength(text[2..])
    else 0
  }

  function Parse(text: string): Path {
    var rest := text[RootNameLength(text)..];
    var rooted := rest != "" && IsSeparator(rest[0]);
    Path(text[..RootNameLength(text)], rooted,
         if rest == "" || (rooted && forall c | c in rest :: IsSeparator(c)) then [] else Names(rest))
  }

  // ---- Normal form ----

  /** One name against the names kept so far; the flag tells whether a separator stays at the end. */
  function Fold(rooted: bool, names: seq<string>): (seq<string>, bool) {
    if names == [] then ([], false)
    else
      var (kept, _) := Fold(rooted, names[..|names| - 1]);
      var name := names[|names| - 1];
      if name == "" || name == "." then (kept, true)
      else if name != ".." then (kept + [name], false)
      else if kept != [] && kept[|kept| - 1] != ".." then (kept[..|kept| - 1], true)
      else if rooted then (kept, true)
      else (kept + [".."], false)
  }

  function Normal(path: Path): Path {
    var (kept, trailing) := Fold(path.rooted, path.components);
    path.(components :=
      if kept == [] then (if path.rooted || path.rootName != "" || path.components == [] then [] else ["."])
      else if trailing && kept[|kept| - 1] != ".." then kept + [""]
      else kept)
  }

  // ---- The two ends ----

  /** `isSafeFolderPackageRelativePath`: not empty, not absolute, and every element is harmless. */
  predicate IsSafeRelativePath(path: Path) {
    && path.Elements() != []
    && !(path.rootName != "" && path.rooted)
    && (path.rootName != "" ==> IsSafeComponent(path.rootName))
    && forall i | 0 <= i < |path.components| :: IsSafeComponent(path.components[i])
  }

  /** Appending a path: another root name replaces everything, a root keeps only the root name. */
  function Append(root: Path, relative: Path): Path {
    if relative.rootName != "" && relative.rootName != root.rootName then relative
    else if relative.rooted then relative.(rootName := root.rootName)
    else root.(components := root.components + relative.components)
  }

  /** `resolveIncomingFolderEntryPath`, or `None` where it throws. */
  function Resolve(root: Path, text: string): Option<Path> {
    if text == "" || |text| > MAX_RELATIVE_PATH_BYTES then None
    else
      var relative := Normal(Parse(text));
      if !IsSafeRelativePath(relative) then None
      else
        var target := Normal(Append(root, relative));
        if root.Elements() <= target.Elements() then Some(target) else None
  }

  ghost predicate ArePlain(names: seq<string>) {
    forall i | 0 <= i < |names| :: names[i] != "" && names[i] != "." && names[i] != ".."
  }

  /** A target root as the receiver stores it: absolute, normalised, without a trailing separator. */
  ghost predicate IsTargetRoot(root: Path) {
    root.rootName != "" && root.rooted && ArePlain(root.components)
  }

  /** What collecting a folder yields: a non-empty path of file names that are safe components. */
  ghost predicate IsEntryPath(components: seq<string>) {
    components != [] && forall i | 0 <= i < |components| :: IsFileName(components[i]) && IsSafeComponent(components[i])
  }

  // ---- Printing and parsing are inverse ----

  lemma {:induction false} NamesOfTwo(first: string, rest: string)
    requires IsFileName(first)
    ensures Names(first) == [first]
    ensures Names(first + "/" + rest) == [first] + Names(rest)
  {
    var text := first + "/" + rest;
    NameLengthIs(first, |first|);
    NameLengthIs(text, |first|);
    assert text[..|first|] == first && text[|first| + 1..] == rest;
  }

  lemma {:induction false} NamesOfJoin(components: seq<string>)
    requires components != [] && forall i | 0 <= i < |components| :: IsFileName(components[i])
    ensures Join(components) != "" && !IsSeparator(Join(components)[0])
    ensures Names(Join(components)) == components
  {
    var rest := components[1..];
    assert components == [components[0]] + rest;
    NamesOfTwo(components[0], Join(rest));
    if rest != [] { NamesOfJoin(rest); }
  }

  lemma {:induction false} NameLengthIs(text: string, n: nat)
    requires n <= |text| && (forall k | 0 <= k < n :: !IsSeparator(text[k])) && (n < |text| ==> IsSeparator(text[n]))
    ensures NameLength(text) == n
  {
    if n > 0 { NameLengthIs(text[1..], n - 1); }
  }

  lemma {:induction false} NoColonInJoin(components: seq<string>)
    requires forall i | 0 <= i < |components| :: ':' !in components[i]
    ensures ':' !in Join(components)
  {
    if |components| > 1 { NoColonInJoin(components[1..]); }
  }

  lemma {:induction false} FoldKeepsNames(rooted: bool, names: seq<string>)
    requires ArePlain(names)
    ensures Fold(rooted, names) == (names, false)
  {
    if names != [] {
      FoldKeepsNames(rooted, names[..|names| - 1]);
      assert names == names[..|names| - 1] + [names[|names| - 1]];
    }
  }

  lemma {:induction false} ParseOfJoin(entry: seq<string>)
    requires IsEntryPath(entry)
    ensures Parse(Join(entry)) == Path("", false, entry)
  {
    var text := Join(entry);
    NamesOfJoin(entry);
    NoColonInJoin(entry);
    assert RootNameLength(text) == 0;
    assert text[0..] == text;
  }

  lemma {:induction false} NormalOfPlain(path: Path)
    requires ArePlain(path.components) && path.components != []
    ensures Normal(path) == path
  {
    FoldKeepsNames(path.rooted, path.components);
  }

  lemma {:induction false} AppendsEntry(root: Path, entry: seq<string>)
    requires IsTargetRoot(root) && IsEntryPath(entry)
    ensures var relative := Path("", false, entry);
            var target := Normal(Append(root, relative));
            && Normal(relative) == relative && IsSafeRelativePath(relative)
            && target == root.(components := root.components + entry)
            && root.Elements() <= target.Elements()
  {
    var target := root.(components := root.components + entry);
    NormalOfPlain(Path("", false, entry));
    NormalOfPlain(target);
    assert target.Elements() == root.Elements() + entry;
  }

  /** What the sender prints for an entry, the receiver resolves to the target root followed by the
      entry's own components, unless the text is longer than the receiver's limit. */
  lemma {:induction false} RelocatesEntry(root: Path, entry: seq<string>)
    requires IsTargetRoot(root) && IsEntryPath(entry)
    ensures Resolve(root, Join(entry)) ==
            if |Join(entry)| > MAX_RELATIVE_PATH_BYTES then None
            else Some(root.(components := root.components + entry))
  {
    NamesOfJoin(entry);
    ParseOfJoin(entry);
    AppendsEntry(root, entry);
  }

  /** Two entries of a folder never land on the same target. */
  lemma {:induction false} DistinctTargets(root: Path, left: seq<string>, right: seq<string>)
    requires IsTargetRoot(root) && IsEntryPath(left) && IsEntryPath(right) && left != right
    requires |Join(left)| <= MAX_RELATIVE_PATH_BYTES && |Join(right)| <= MAX_RELATIVE_PATH_BYTES
    ensures Resolve(root, Join(left)).Some? && Resolve(root, Join(right)).Some?
    ensures Resolve(root, Join(left)) != Resolve(root, Join(right))
  {
    RelocatesEntry(root, left);
    RelocatesEntry(root, right);
    var a, b := root.components + left, root.components + right;
    assert a[|root.components|..] == left && b[|root.components|..] == right;
  }

  // ---- Every accepted text stays inside ----

  /** Whatever text a peer sends: an accepted one resolves to the root's components followed by
      plain names, and a text without root is accepted exactly when its normal form is safe. */
  lemma {:induction false} AcceptedStaysInside(root: Path, text: string)
    requires IsTargetRoot(root)
    ensures var relative := Normal(Parse(text));
            && (Resolve(root, text).Some? ==>
                  var target := Resolve(root, text).value;
                  && target.rootName == root.rootName && target.rooted
                  && root.components <= target.components
                  && forall i | |root.components| <= i < |target.components| :: target.components[i] !in {"", ".", ".."})
            && (relative.rootName == "" && !relative.rooted ==>
                  (Resolve(root, text).Some? <==>
                     0 < |text| <= MAX_RELATIVE_PATH_BYTES && IsSafeRelativePath(relative)))
  {
    var relative := Normal(Parse(text));
    if 0 < |text| <= MAX_RELATIVE_PATH_BYTES && IsSafeRelativePath(relative) {
      var appended := Append(root, relative);
      if appended.rootName == root.rootName {
        FoldKeepsNames(true, appended.components);
        NormalKeepsRoot(root, appended);
      } else {
        assert root.Elements()[0] != Normal(appended).Elements()[0];
      }
    }
  }

  lemma {:induction false} NormalKeepsRoot(root: Path, appended: Path)
    requires IsTargetRoot(root) && appended.rootName == root.rootName && appended.rooted && ArePlain(appended.components)
    ensures Normal(appended) == appended
    ensures root.Elements() <= appended.Elements() <==> root.components <= appended.components
  {
    FoldKeepsNames(true, appended.components);
    var prefix := [root.rootName] + ["/"];
    assert root.Elements() == prefix + root.components && appended.Elements() == prefix + appended.components;
    PrefixCancels(prefix, root.components, appended.components);
  }

  lemma {:induction false} PrefixCancels(prefix: seq<string>, a: seq<string>, b: seq<string>)
    ensures prefix + a <= prefix + b <==> a <= b
  {
    if prefix + a <= prefix + b {
      assert a == (prefix + a)[|prefix|..] == (prefix + b)[..|prefix + a|][|prefix|..] == b[..|a|];
    }
  }
}
