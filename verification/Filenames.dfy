/** On-disk names of catalog images: uniqueFilenameTx, suffixedName and the insert
    with one retry of FinalizeImage (internal/images).  A sanitized upload name is
    never empty. */
module Filenames {
  import opened Basics
  import opened Chunks

  type Name = s: string | s != "" witness "image"
  type Digest = d: string | |d| == 64 witness seq(64, _ => '0')
  type ImageId = nat
  type SessionId = nat

  /** A catalog row.  `origin`, `expected` and `bytes` are history: the session it came
      from, the hash that session's client announced, and the bytes that were hashed. */
  datatype Image = Image(filename: string, sha: Digest, origin: SessionId, expected: Option<Digest>, bytes: Bytes)

  type Images = map<ImageId, Image>

  /** The UNIQUE indexes on filename and sha256. */
  predicate NameTaken(images: Images, f: string) {
    exists i :: i in images && images[i].filename == f
  }

  predicate ShaTaken(images: Images, d: Digest) {
    exists i :: i in images && images[i].sha == d
  }

  /** filepath.Ext of a name without separators: from the last dot on. */
  function Ext(s: string): (e: string)
    ensures |e| <= |s| && s[|s| - |e|..] == e
    ensures e != "" ==> e[0] == '.' && '.' !in e[1..]
    ensures e == "" ==> '.' !in s
  {
    if s == "" then ""
    else
      var n := |s| - 1;
      if s[n] == '.' then s[n..]
      else
        var e := Ext(s[..n]);
        assert s == s[..n] + [s[n]];
        if e == "" then "" else e + [s[n]]
  }

  predicate HasSuffix(s: string, e: string) {
    |e| <= |s| && s[|s| - |e|..] == e
  }

  function TrimSuffix(s: string, e: string): string {
    if HasSuffix(s, e) then s[..|s| - |e|] else s
  }

  function SuffixedName(base: string, ext: string, sha: Digest): string {
    TrimSuffix(base, ext) + "-" + sha[..8] + ext
  }

  /** The extension-normalised name: an image extension is kept, anything else
      becomes the format. */
  function Normalised(base: Name, format: string): (string, string) {
    var ext := Ext(base);
    if ext == ".qcow2" || ext == ".raw" || ext == ".img" then (base, ext)
    else if ext == "" then
      var e := "." + format;
      if e == ".qcow2" || e == ".raw" || e == ".img" then (base + e, e)
      else (TrimSuffix(base + e, e) + "." + format, e)
    else (TrimSuffix(base, ext) + "." + format, "." + format)
  }

  function UniqueFilename(images: Images, base: Name, format: string, sha: Digest): string {
    var (name, ext) := Normalised(base, format);
    if name == ext then sha[..12] + ext
    else if forall i :: i in images && images[i].filename == name ==> images[i].sha == sha then name
    else SuffixedName(name, ext, sha)
  }

  /** The name FinalizeImage commits under, or None when it rolls back. */
  function CommitName(images: Images, base: Name, format: string, sha: Digest): Option<string> {
    if ShaTaken(images, sha) then None
    else
      var f := UniqueFilename(images, base, format, sha);
      if !NameTaken(images, f) then Some(f)
      else
        var g := SuffixedName(f, Ext(f), sha);
        if !NameTaken(images, g) then Some(g) else None
  }

  ghost predicate UniqueRows(images: Images) {
    && (forall i, j :: i in images && j in images && i != j ==> images[i].filename != images[j].filename)
    && (forall i, j :: i in images && j in images && i != j ==> images[i].sha != images[j].sha)
    && (forall i :: i in images ==> images[i].filename != "")
  }

  /** A commit never claims a name or a hash that another row has. */
  lemma CommitKeepsUnique(images: Images, base: Name, format: string, sha: Digest, id: ImageId, row: Image)
    requires UniqueRows(images) && id !in images
    requires CommitName(images, base, format, sha) == Some(row.filename) && row.sha == sha
    ensures UniqueRows(images[id := row])
    ensures !NameTaken(images, row.filename) && !ShaTaken(images, sha)
  {
    hide CommitName;
    CommitNameFree(images, base, format, sha);
  }

  lemma CommitNameFree(images: Images, base: Name, format: string, sha: Digest)
    requires CommitName(images, base, format, sha).Some?
    ensures var f := CommitName(images, base, format, sha).value; !NameTaken(images, f) && f != ""
    ensures !ShaTaken(images, sha)
  {
  }

  /** A suffix from the last dot on. */
  predicate IsExtension(ext: string) {
    ext != "" && ext[0] == '.' && '.' !in ext[1..]
  }

  lemma {:induction false} ExtOf(stem: string, ext: string)
    requires IsExtension(ext)
    ensures Ext(stem + ext) == ext
    decreases |ext|
  {
    var s, n, m := stem + ext, |stem + ext| - 1, |ext| - 1;
    assert s[..n] == stem + ext[..m] && s[n] == ext[m];
    if m > 0 {
      assert ext == ext[..m] + [ext[m]] && ext[1..][m - 1] == ext[m];
      assert forall k :: 0 <= k < m - 1 ==> ext[..m][1..][k] == ext[1..][k];
      ExtOf(stem, ext[..m]);
    }
  }

  lemma TrimOf(stem: string, ext: string)
    ensures TrimSuffix(stem + ext, ext) == stem
  {
    assert (stem + ext)[|stem|..] == ext && (stem + ext)[..|stem|] == stem;
  }

  /** The extension a catalog name ends in: an image extension is kept, anything else gives
      way to the format. */
  function FinalExt(ext: string, format: string): string {
    if ext in {".qcow2", ".raw", ".img"} then ext else "." + format
  }

  lemma NormalisedIs(stem: string, ext: string, format: string)
    requires stem + ext != "" && (IsExtension(ext) || (ext == "" && '.' !in stem))
    ensures Normalised(stem + ext, format) == (stem + FinalExt(ext, format), FinalExt(ext, format))
  {
    hide TrimSuffix;
    if ext == "" {
      assert stem + ext == stem;
      assert Ext(stem) == "";
      TrimOf(stem, "." + format);
      assert stem + "." + format == stem + ("." + format);
    } else {
      ExtOf(stem, ext);
      TrimOf(stem, ext);
      assert stem + "." + format == stem + ("." + format);
    }
  }

  /** The catalog name of an upload called stem + ext, in elementary terms: the stem with its
      final extension if that is free, else with the first eight digits of the hash between
      them; a name without a stem gets twelve digits of the hash as one.  If that is taken too,
      eight digits are added once more, and then the commit gives up. */
  lemma NameSpelt(images: Images, stem: string, ext: string, format: string, sha: Digest)
    requires stem + ext != "" && (IsExtension(ext) || (ext == "" && '.' !in stem))
    ensures (exists i :: i in images && images[i].sha == sha) ==> CommitName(images, stem + ext, format, sha) == None
    ensures !(exists i :: i in images && images[i].sha == sha) ==>
      var e := if ext in {".qcow2", ".raw", ".img"} then ext else "." + format;
      var plain := if stem == "" then sha[..12] + e else stem + e;
      var suffixed := stem + "-" + sha[..8] + e;
      && (!NameTaken(images, plain) ==> CommitName(images, stem + ext, format, sha) == Some(plain))
      && (stem != "" && NameTaken(images, plain) && !NameTaken(images, suffixed) ==>
            CommitName(images, stem + ext, format, sha) == Some(suffixed))
      && ('.' !in format && NameTaken(images, plain) && (stem == "" || NameTaken(images, suffixed)) ==>
            var third := (if stem == "" then sha[..12] else stem + "-" + sha[..8]) + "-" + sha[..8] + e;
            CommitName(images, stem + ext, format, sha) == if NameTaken(images, third) then None else Some(third))
  {
    hide UniqueFilename, Ext, NameTaken, SuffixedName;
    if !ShaTaken(images, sha) {
      var e := FinalExt(ext, format);
      UniqueIs(images, stem, ext, format, sha);
      if '.' !in format {
        SuffixesAgain(stem + "-" + sha[..8], e, sha);
        SuffixesAgain(sha[..12], e, sha);
      }
    }
  }

  lemma SuffixesAgain(stem: string, e: string, sha: Digest)
    requires IsExtension(e)
    ensures SuffixedName(stem + e, Ext(stem + e), sha) == stem + "-" + sha[..8] + e
  {
    hide TrimSuffix, Ext;
    ExtOf(stem, e);
    TrimOf(stem, e);
  }

  lemma UniqueIs(images: Images, stem: string, ext: string, format: string, sha: Digest)
    requires stem + ext != "" && (IsExtension(ext) || (ext == "" && '.' !in stem)) && !ShaTaken(images, sha)
    ensures UniqueFilename(images, stem + ext, format, sha) ==
      var e := FinalExt(ext, format);
      if stem == "" then sha[..12] + e
      else if NameTaken(images, stem + e) then stem + "-" + sha[..8] + e
      else stem + e
  {
    hide Normalised, TrimSuffix, Ext;
    NormalisedIs(stem, ext, format);
    var e := FinalExt(ext, format);
    TrimOf(stem, e);
    assert stem + e == e <==> stem == "";
  }
}
