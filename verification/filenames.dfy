/**
 * File names: the pathlib accessors the services use (`name`, `suffix`,
 * `stem`) and the filename sanitiser that names each student's document.
 */
module Filenames {
  import opened Wrappers
  import opened Text

  /** `Path(p).name`: the last `/`-separated component. */
  function BaseName(path: string): (r: string)
    ensures '/' !in r
    ensures |r| <= |path| && r == path[|path| - |r|..]
  {
    match LastIndexOf(path, '/')
    case None => assert path == [] + path; path
    case Some(i) => assert path == path[..i + 1] + path[i + 1..]; path[i + 1..]
  }

  /** Where `name`'s suffix starts: the last dot, unless it leads or ends the name. */
  function SuffixStart(name: string): (r: Option<nat>)
    ensures r.Some? ==> 0 < r.value < |name| - 1 && name[r.value] == '.'
    ensures r.Some? ==> '.' !in name[r.value + 1..]
  {
    match LastIndexOf(name, '.')
    case Some(i) => if 0 < i < |name| - 1 then Some(i) else None
    case None => None
  }

  /** `Path(p).suffix` of a base name: "" or a dot followed by at least one non-dot. */
  function Suffix(name: string): (r: string)
    ensures r == [] || (|r| >= 2 && r[0] == '.' && '.' !in r[1..])
  {
    match SuffixStart(name)
    case Some(i) => name[i..]
    case None => []
  }

  /** `Path(p).stem` of a base name: the name without its suffix. */
  function Stem(name: string): (r: string)
    ensures r != [] || name == []
  {
    match SuffixStart(name)
    case Some(i) => name[..i]
    case None => name
  }

  /** Stem and suffix split the name: nothing is lost and nothing is added. */
  lemma StemSuffixSplit(name: string)
    ensures Stem(name) + Suffix(name) == name
  {
    match SuffixStart(name)
    case Some(i) => assert name == name[..i] + name[i..];
    case None =>
  }

  /** A stem followed by a known extension gives back that stem: "Rahul" + ".pdf". */
  lemma StemOfExtended(stem: string, ext: string)
    requires stem != [] && '/' !in stem
    requires |ext| >= 2 && ext[0] == '.' && '.' !in ext[1..]
    ensures Stem(stem + ext) == stem && Suffix(stem + ext) == ext
  {
    var name := stem + ext;
    assert name[|stem|] == '.';
    assert name[|stem| + 1..] == ext[1..];
  }

  /** The base name of `dir/name`, for a name without a slash, is that name. */
  lemma BaseNameOfJoined(dir: string, name: string)
    requires '/' !in name
    ensures BaseName(dir + "/" + name) == name
  {
    var path := dir + "/" + name;
    assert path[|dir|] == '/';
    assert path[|dir| + 1..] == name;
  }

  /** The characters that cannot appear in a file name on common systems. */
  predicate IsReserved(c: char) {
    c == '/' || c == '\\' || c == ':' || c == '*' || c == '?' || c == '"' || c == '<' || c == '>' || c == '|'
  }

  predicate IsSpaceOrDot(c: char) {
    IsSpace(c) || c == '.'
  }

  /** One character of a sanitised name: a reserved character becomes an underscore. */
  function SafeChar(c: char): (d: char)
    ensures !IsReserved(d)
    ensures IsSpace(d) == IsSpace(c) && IsSpaceOrDot(d) == IsSpaceOrDot(c)
  {
    if IsReserved(c) then '_' else c
  }

  /** Each reserved character replaced by one underscore; everything else kept in place. */
  function ReplaceReserved(s: string): (r: string)
    ensures |r| == |s|
    ensures forall i :: 0 <= i < |s| ==> r[i] == SafeChar(s[i])
  {
    if s == [] then [] else [SafeChar(s[0])] + ReplaceReserved(s[1..])
  }

  /** `s.rstrip(whitespace + ".")`: trailing whitespace and dots removed. */
  function TrimEndSpaceOrDot(s: string): (r: string)
    ensures |r| <= |s| && r == s[..|r|]
    ensures r == [] || !IsSpaceOrDot(r[|r| - 1])
  {
    if s == [] || !IsSpaceOrDot(s[|s| - 1]) then s else TrimEndSpaceOrDot(s[..|s| - 1])
  }

  const Unnamed: string := "unnamed"

  /** A name that sanitising leaves alone. */
  predicate IsSafeName(s: string) {
    && s != []
    && (forall i :: 0 <= i < |s| ==> !IsReserved(s[i]))
    && !IsSpace(s[0])
    && !IsSpaceOrDot(s[|s| - 1])
  }

  /**
   * `sanitize_filename`: reserved characters become underscores, leading
   * whitespace and trailing whitespace or dots are trimmed, and a name that
   * ends up empty becomes "unnamed".
   */
  function Sanitize(s: string): (r: string)
    ensures r != [] && !IsSpace(r[0]) && !IsSpaceOrDot(r[|r| - 1])
  {
    var u := TrimEndSpaceOrDot(TrimStart(ReplaceReserved(s)));
    if u == [] then Unnamed else u
  }

  /** Whatever the input, the sanitised name is non-empty, free of reserved characters and trimmed. */
  lemma SanitizeIsSafe(s: string)
    ensures IsSafeName(Sanitize(s))
  {
    SanitizeStartsClean(s);
    SanitizeEndsClean(s);
    SanitizeHasNoReserved(s);
  }

  lemma SanitizeStartsClean(s: string)
    ensures Sanitize(s) != [] && !IsSpace(Sanitize(s)[0])
  {
  }

  lemma SanitizeEndsClean(s: string)
    ensures Sanitize(s) != [] && !IsSpaceOrDot(Sanitize(s)[|Sanitize(s)| - 1])
  {
  }

  lemma SanitizeHasNoReserved(s: string)
    ensures forall i :: 0 <= i < |Sanitize(s)| ==> !IsReserved(Sanitize(s)[i])
  {
    var replaced := ReplaceReserved(s);
    var t := TrimStart(replaced);
    var u := TrimEndSpaceOrDot(t);
    if u != [] {
      forall i | 0 <= i < |u| ensures !IsReserved(u[i]) {
        assert u[i] == replaced[|replaced| - |t| + i];
      }
    }
  }

  /** A name that is already safe passes through unchanged. */
  lemma SanitizeKeepsSafeName(s: string)
    requires IsSafeName(s)
    ensures Sanitize(s) == s
  {
    var replaced := ReplaceReserved(s);
    assert replaced == s;
  }

  /** Sanitising twice is the same as sanitising once. */
  lemma SanitizeIdempotent(s: string)
    ensures Sanitize(Sanitize(s)) == Sanitize(s)
  {
    SanitizeIsSafe(s);
    SanitizeKeepsSafeName(Sanitize(s));
  }

  /** With nothing to trim, sanitising replaces each reserved character by exactly one underscore. */
  lemma SanitizeReplacesInPlace(s: string)
    requires s != [] && !IsSpace(s[0]) && !IsSpaceOrDot(s[|s| - 1])
    ensures Sanitize(s) == ReplaceReserved(s)
  {
    var replaced := ReplaceReserved(s);
    assert !IsSpace(replaced[0]);
    assert TrimStart(replaced) == replaced;
    assert !IsSpaceOrDot(replaced[|replaced| - 1]);
    assert TrimEndSpaceOrDot(replaced) == replaced;
  }

  lemma {:induction false} TrimStartSkipsBlanks(w: string, s: string)
    requires forall i :: 0 <= i < |w| ==> IsSpace(w[i])
    requires s == [] || !IsSpace(s[0])
    ensures TrimStart(w + s) == s
    decreases |w|
  {
    if w != [] {
      assert (w + s)[1..] == w[1..] + s;
      TrimStartSkipsBlanks(w[1..], s);
    }
  }

  lemma {:induction false} TrimEndSkipsSpacesAndDots(s: string, w: string)
    requires forall i :: 0 <= i < |w| ==> IsSpaceOrDot(w[i])
    requires s == [] || !IsSpaceOrDot(s[|s| - 1])
    ensures TrimEndSpaceOrDot(s + w) == s
    decreases |w|
  {
    if w != [] {
      assert (s + w)[..|s + w| - 1] == s + w[..|w| - 1];
      TrimEndSkipsSpacesAndDots(s, w[..|w| - 1]);
    }
  }

  lemma ReplaceReservedKeepsBlanksAndDots(s: string)
    requires forall i :: 0 <= i < |s| ==> IsSpaceOrDot(s[i])
    ensures forall i :: 0 <= i < |s| ==> IsSpaceOrDot(ReplaceReserved(s)[i])
  {
  }

  lemma TrimStartKeepsBlanksAndDots(s: string)
    requires forall i :: 0 <= i < |s| ==> IsSpaceOrDot(s[i])
    ensures forall i :: 0 <= i < |TrimStart(s)| ==> IsSpaceOrDot(TrimStart(s)[i])
  {
    var t := TrimStart(s);
    forall i | 0 <= i < |t| ensures IsSpaceOrDot(t[i]) {
      assert t[i] == s[|s| - |t| + i];
    }
  }

  /** A name made only of blanks and dots (the empty name among them) becomes "unnamed". */
  lemma SanitizeOfBlanksAndDots(s: string)
    requires forall i :: 0 <= i < |s| ==> IsSpaceOrDot(s[i])
    ensures Sanitize(s) == Unnamed
  {
    var t := TrimStart(ReplaceReserved(s));
    assert forall i :: 0 <= i < |t| ==> IsSpaceOrDot(t[i]) by {
      ReplaceReservedKeepsBlanksAndDots(s);
      TrimStartKeepsBlanksAndDots(ReplaceReserved(s));
    }
    assert TrimEndSpaceOrDot(t) == [] by {
      TrimEndSkipsSpacesAndDots([], t);
      assert [] + t == t;
    }
  }

  /** Blanks around a safe name are trimmed away and nothing else changes. */
  lemma SanitizeTrimsBlanks(w1: string, s: string, w2: string)
    requires IsSafeName(s)
    requires forall i :: 0 <= i < |w1| ==> IsSpace(w1[i])
    requires forall i :: 0 <= i < |w2| ==> IsSpace(w2[i])
    ensures Sanitize(w1 + s + w2) == s
  {
    var x := w1 + s + w2;
    assert ReplaceReserved(x) == x;
    assert x == w1 + (s + w2);
    TrimStartSkipsBlanks(w1, s + w2);
    TrimEndSkipsSpacesAndDots(s, w2);
  }
}
