/** `clean_filename` (hello.py), which the debug mode applies to
    "<title>_by_<artist>" before saving the clip under that name. */
module Filenames {

  /** The characters of the pattern `[<>:"/\\|?*]`. */
  predicate Forbidden(c: char) {
    c == '<' || c == '>' || c == ':' || c == '"' || c == '/' ||
    c == '\\' || c == '|' || c == '?' || c == '*'
  }

  /** `re.sub(r'[<>:"/\\|?*]', '_', s)`: every forbidden character becomes '_'. */
  function CleanFilename(s: string): (r: string)
    ensures |r| == |s|
    ensures forall i :: 0 <= i < |s| && Forbidden(s[i]) ==> r[i] == '_'
    ensures forall i :: 0 <= i < |s| && !Forbidden(s[i]) ==> r[i] == s[i]
    ensures forall i :: 0 <= i < |r| ==> !Forbidden(r[i])
  {
    if s == [] then []
    else [if Forbidden(s[0]) then '_' else s[0]] + CleanFilename(s[1..])
  }

  /** A name without forbidden characters is left as it is. */
  lemma {:induction false} CleanFilenameKeepsClean(s: string)
    requires forall i :: 0 <= i < |s| ==> !Forbidden(s[i])
    ensures CleanFilename(s) == s
  {
    if s != [] {
      CleanFilenameKeepsClean(s[1..]);
    }
  }

  /** Cleaning twice is cleaning once. */
  lemma CleanFilenameIdempotent(s: string)
    ensures CleanFilename(CleanFilename(s)) == CleanFilename(s)
  {
    CleanFilenameKeepsClean(CleanFilename(s));
  }

  /** Cleaning works character by character, so it distributes over concatenation. */
  lemma {:induction false} CleanFilenameAppend(a: string, b: string)
    ensures CleanFilename(a + b) == CleanFilename(a) + CleanFilename(b)
  {
    if a != [] {
      assert (a + b)[1..] == a[1..] + b;
      CleanFilenameAppend(a[1..], b);
    }
  }

  /** The base of the debug file name for a song whose title and artist are strings. */
  function DebugFileBase(title: string, artist: string): (base: string)
    ensures |base| == |title| + 4 + |artist|
    ensures base[|title|..|title| + 4] == "_by_"
    ensures forall i :: 0 <= i < |base| ==> !Forbidden(base[i])
  {
    CleanFilename(title + "_by_" + artist)
  }

  /** The separator survives cleaning, and each part is cleaned on its own. */
  lemma DebugFileBaseParts(title: string, artist: string)
    ensures DebugFileBase(title, artist) == CleanFilename(title) + "_by_" + CleanFilename(artist)
  {
    CleanFilenameAppend(title + "_by_", artist);
    CleanFilenameAppend(title, "_by_");
    CleanFilenameKeepsClean("_by_");
  }
}
