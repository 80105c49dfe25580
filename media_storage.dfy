/*
 * The local photo store (LocalFileStorageService.java): where an uploaded
 * machine photo goes, the URL it is served under, and the checks that keep
 * every write and delete inside the storage root. A path is the sequence of
 * its names; resolving a text against a directory and normalising it is a
 * fold over the text's '/'-separated names.
 */
module MediaStorage {
  import opened Base
  import opened JavaStrings

  // ---------------------------------------------------------------------------
  // Paths
  // ---------------------------------------------------------------------------

  /** An absolute path: the names below the file-system root. */
  type Path = seq<string>

  /** The names of a path text, split at every '/' (empty names included). */
  function Split(s: string): (r: seq<string>)
    ensures |r| >= 1
    decreases |s|
  {
    if s == [] then [""]
    else
      var rest := Split(s[1..]);
      if s[0] == '/' then [""] + rest else [[s[0]] + rest[0]] + rest[1..]
  }

  /** `Split` on a text with a known first character. */
  lemma SplitCons(c: char, t: string)
    ensures Split([c] + t) == if c == '/' then [""] + Split(t) else [[c] + Split(t)[0]] + Split(t)[1..]
  {
    assert ([c] + t)[0] == c && ([c] + t)[1..] == t;
  }

  /** A text without '/' is a single name. */
  lemma {:induction false} SplitNoSlash(s: string)
    requires '/' !in s
    ensures Split(s) == [s]
    decreases |s|
  {
    if s != [] {
      SplitNoSlash(s[1..]);
      assert [s[0]] + s[1..] == s;
    }
  }

  /** Splitting at a '/' between two texts splits each of them. */
  lemma {:induction false} SplitJoin(a: string, b: string)
    ensures Split(a + "/" + b) == Split(a) + Split(b)
    decreases |a|
  {
    if a == [] {
      assert a + "/" + b == ['/'] + b;
      SplitCons('/', b);
    } else {
      var t := a[1..] + "/" + b;
      assert a + "/" + b == [a[0]] + t;
      assert a == [a[0]] + a[1..];
      SplitJoin(a[1..], b);
      SplitCons(a[0], t);
      SplitCons(a[0], a[1..]);
      PrependName(a[0], Split(a[1..]), Split(b), Split(t));
    }
  }

  /** Prepending a character to the first of the names commutes with appending more names. */
  lemma PrependName(c: char, ra: seq<string>, rb: seq<string>, joined: seq<string>)
    requires |ra| >= 1 && joined == ra + rb
    ensures (if c == '/' then [""] + joined else [[c] + joined[0]] + joined[1..])
            == (if c == '/' then [""] + ra else [[c] + ra[0]] + ra[1..]) + rb
  {
    if c != '/' {
      assert (ra + rb)[0] == ra[0];
      assert (ra + rb)[1..] == ra[1..] + rb;
    }
  }

  /** One name of `normalize()`: "" and "." vanish, ".." drops the last name (none above the root). */
  function Step(p: Path, name: string): Path
  {
    if name == "" || name == "." then p
    else if name == ".." then (if p == [] then [] else p[..|p| - 1])
    else p + [name]
  }

  /** `dir.resolve(names).normalize()` for a relative text, name by name. */
  function NormalizeFrom(dir: Path, names: seq<string>): Path
    decreases |names|
  {
    if names == [] then dir else NormalizeFrom(Step(dir, names[0]), names[1..])
  }

  lemma {:induction false} NormalizeConcat(dir: Path, a: seq<string>, b: seq<string>)
    ensures NormalizeFrom(dir, a + b) == NormalizeFrom(NormalizeFrom(dir, a), b)
    decreases |a|
  {
    if a != [] {
      NormalizeConcat(Step(dir, a[0]), a[1..], b);
      assert (a + b)[0] == a[0];
      assert (a + b)[1..] == a[1..] + b;
      assert a + b != [];
      assert NormalizeFrom(dir, a + b) == NormalizeFrom(Step(dir, a[0]), a[1..] + b);
    } else {
      assert a + b == b;
    }
  }

  /** `dir.resolve(text).normalize()`: a text starting with '/' is absolute and ignores `dir`. */
  function Resolve(dir: Path, text: string): Path
  {
    if |text| > 0 && text[0] == '/' then NormalizeFrom([], Split(text)) else NormalizeFrom(dir, Split(text))
  }

  /** `p.startsWith(dir)`: `dir`'s names are the first names of `p`. */
  predicate Under(p: Path, dir: Path)
  {
    |dir| <= |p| && p[..|dir|] == dir
  }

  /** Without a ".." name, resolving never leaves the directory. */
  lemma {:induction false} NoDotDotStaysUnder(dir: Path, names: seq<string>)
    requires forall i :: 0 <= i < |names| ==> names[i] != ".."
    ensures Under(NormalizeFrom(dir, names), dir)
    decreases |names|
  {
    if names != [] {
      var d := Step(dir, names[0]);
      NoDotDotStaysUnder(d, names[1..]);
      assert Under(d, dir);
      var p := NormalizeFrom(d, names[1..]);
      assert p[..|dir|] == p[..|d|][..|dir|];
    }
  }

  // ---------------------------------------------------------------------------
  // saveMachinePhotos (LocalFileStorageService.java:52-110)
  // ---------------------------------------------------------------------------

  /**
   * An uploaded file: whether it is empty, its original name, the UUID the
   * store draws for it and whether copying its bytes succeeds.
   */
  datatype Upload = Upload(isEmpty: bool, originalName: Option<string>, uuid: string, copyOk: bool)

  /** The extension: the suffix from the last '.', or "" when there is none. */
  function Extension(name: string): (e: string)
    ensures e == [] <==> '.' !in name
    ensures e != [] ==> e[0] == '.' && '.' !in e[1..] && |e| <= |name| && name[|name| - |e|..] == e
  {
    var dot := LastIndexOf(name, '.');
    if dot.Some? then
      var e := name[dot.value..];
      assert forall k :: 0 <= k < |e| - 1 ==> e[1..][k] == name[dot.value + 1 + k];
      e
    else ""
  }

  /** The stored file name: the UUID followed by the original extension ("photo" when the name is null). */
  function FileName(u: Upload): string
  {
    u.uuid + Extension(u.originalName.GetOr("photo"))
  }

  /** The directory of a machine's photos: `image/<enterprise>/<machine>` under the root. */
  function ImageDir(root: Path, entrepriseId: string, machineId: string): Path
  {
    NormalizeFrom(root, Split("image/" + entrepriseId + "/" + machineId))
  }

  /** The URL a stored photo is served under, backslashes turned into slashes. */
  function PhotoUrl(entrepriseId: string, machineId: string, fileName: string): string
  {
    ReplaceChar("/media/image/" + entrepriseId + "/" + machineId + "/" + fileName, '\\', '/')
  }

  /**
   * One file of the loop: skipped when null or empty, when its target
   * leaves the image directory, or when the copy fails; otherwise its URL.
   */
  function UrlFor(imageDir: Path, entrepriseId: string, machineId: string, f: Option<Upload>): Option<string>
  {
    if f.None? || f.value.isEmpty then None
    else
      var name := FileName(f.value);
      if !Under(Resolve(imageDir, name), imageDir) || !f.value.copyOk then None
      else Some(PhotoUrl(entrepriseId, machineId, name))
  }

  /** What the loop does with each file, in order: its URL, or None when it is skipped. */
  function Decisions(imageDir: Path, entrepriseId: string, machineId: string, files: seq<Option<Upload>>)
    : (ds: seq<Option<string>>)
    ensures |ds| == |files|
    ensures forall k :: 0 <= k < |files| ==> ds[k] == UrlFor(imageDir, entrepriseId, machineId, files[k])
  {
    seq(|files|, k requires 0 <= k < |files| => UrlFor(imageDir, entrepriseId, machineId, files[k]))
  }

  /** The URLs kept while fewer than `cap` were: the loop's `break` once the list is full. */
  function Capped(ds: seq<Option<string>>, cap: int): seq<string>
    decreases |ds|
  {
    if ds == [] || cap <= 0 then []
    else if ds[0].Some? then [ds[0].value] + Capped(ds[1..], cap - 1)
    else Capped(ds[1..], cap)
  }

  /** The URLs `saveMachinePhotos` returns for these files. */
  function SavedUrls(imageDir: Path, entrepriseId: string, machineId: string, files: seq<Option<Upload>>, cap: int): seq<string>
  {
    Capped(Decisions(imageDir, entrepriseId, machineId, files), cap)
  }

  /**
   * Saves the photos. No files, or no room, gives no URL; an image
   * directory outside the root is an error; otherwise the URLs of the saved
   * files, at most `maxUploads` of them.
   */
  method SaveMachinePhotos(root: Path, entrepriseId: string, machineId: string,
                           files: Option<seq<Option<Upload>>>, maxUploads: int)
    returns (r: Result<seq<string>>)
    ensures (files.None? || files.value == [] || maxUploads <= 0) ==> r == Ok([])
    ensures files.Some? && files.value != [] && maxUploads > 0 ==>
              var dir := ImageDir(root, entrepriseId, machineId);
              (r.Err? <==> !Under(dir, root))
              && (r.Ok? ==> r.value == SavedUrls(dir, entrepriseId, machineId, files.value, maxUploads))
  {
    if files.None? || |files.value| == 0 || maxUploads <= 0 {
      return Ok([]);
    }
    var imageDir := ImageDir(root, entrepriseId, machineId);
    if !Under(imageDir, root) {
      return Err("Chemin de fichier invalide pour les photos de machine");
    }
    var fs := files.value;
    ghost var ds := Decisions(imageDir, entrepriseId, machineId, fs);
    var urls: seq<string> := [];
    var i := 0;
    assert ds[0..] == ds;
    while i < |fs|
      invariant 0 <= i <= |fs|
      invariant |urls| <= maxUploads
      invariant urls + Capped(ds[i..], maxUploads - |urls|) == Capped(ds, maxUploads)
    {
      if |urls| >= maxUploads {
        break;
      }
      var f := fs[i];
      var next := urls;
      if f.Some? && !f.value.isEmpty {
        var name := FileName(f.value);
        var target := Resolve(imageDir, name);
        if Under(target, imageDir) && f.value.copyOk {
          next := urls + [PhotoUrl(entrepriseId, machineId, name)];
        }
      }
      assert ds[i] == UrlFor(imageDir, entrepriseId, machineId, f);
      CappedStep(ds, i, maxUploads, urls, next);
      urls := next;
      i := i + 1;
    }
    if i == |fs| {
      assert ds[i..] == [];
    }
    return Ok(urls);
  }

  /** One turn of the loop keeps the URLs so far followed by those still to come equal to the whole result. */
  lemma CappedStep(ds: seq<Option<string>>, i: int, cap: int, urls: seq<string>, next: seq<string>)
    requires 0 <= i < |ds| && |urls| < cap
    requires urls + Capped(ds[i..], cap - |urls|) == Capped(ds, cap)
    requires next == (if ds[i].Some? then urls + [ds[i].value] else urls)
    ensures |next| <= cap
    ensures next + Capped(ds[i + 1..], cap - |next|) == Capped(ds, cap)
  {
    assert ds[i..][0] == ds[i] && ds[i..][1..] == ds[i + 1..];
    if ds[i].Some? {
      var rest := Capped(ds[i + 1..], cap - |urls| - 1);
      assert (urls + [ds[i].value]) + rest == urls + ([ds[i].value] + rest);
    }
  }

  /** At most `cap` URLs, and never more than there are files. */
  lemma {:induction false} CappedBound(ds: seq<Option<string>>, cap: int)
    ensures |Capped(ds, cap)| <= |ds|
    ensures cap >= 0 ==> |Capped(ds, cap)| <= cap
    decreases |ds|
  {
    if ds != [] && cap > 0 {
      CappedBound(ds[1..], cap - 1);
      CappedBound(ds[1..], cap);
    }
  }

  /** Every URL kept is the decision of one of the files, in the order of the files. */
  lemma {:induction false} CappedFromDecisions(ds: seq<Option<string>>, cap: int, k: int)
    requires 0 <= k < |Capped(ds, cap)|
    ensures exists i :: 0 <= i < |ds| && ds[i] == Some(Capped(ds, cap)[k])
    decreases |ds|
  {
    var rest := if ds[0].Some? then cap - 1 else cap;
    var tail := Capped(ds[1..], rest);
    if ds[0].Some? && k == 0 {
      assert ds[0] == Some(Capped(ds, cap)[0]);
    } else {
      var k' := if ds[0].Some? then k - 1 else k;
      assert Capped(ds, cap)[k] == tail[k'];
      CappedFromDecisions(ds[1..], rest, k');
      var i :| 0 <= i < |ds[1..]| && ds[1..][i] == Some(tail[k']);
      assert ds[i + 1] == ds[1..][i];
    }
  }

  /** At most `maxUploads` URLs come back, and never more than there were files. */
  lemma SavedUrlsBound(imageDir: Path, e: string, m: string, files: seq<Option<Upload>>, cap: int)
    ensures |SavedUrls(imageDir, e, m, files, cap)| <= |files|
    ensures cap >= 0 ==> |SavedUrls(imageDir, e, m, files, cap)| <= cap
  {
    CappedBound(Decisions(imageDir, e, m, files), cap);
  }

  /**
   * Every URL returned is the URL of a non-empty file whose target stays in
   * the image directory and whose copy succeeded; null, empty and escaping
   * files are skipped.
   */
  lemma SavedUrlsAreStoredFiles(imageDir: Path, e: string, m: string, files: seq<Option<Upload>>, cap: int, k: int)
    requires 0 <= k < |SavedUrls(imageDir, e, m, files, cap)|
    ensures exists i :: 0 <= i < |files| && files[i].Some? && !files[i].value.isEmpty && files[i].value.copyOk
                        && Under(Resolve(imageDir, FileName(files[i].value)), imageDir)
                        && SavedUrls(imageDir, e, m, files, cap)[k] == PhotoUrl(e, m, FileName(files[i].value))
  {
    var ds := Decisions(imageDir, e, m, files);
    CappedFromDecisions(ds, cap, k);
    var i :| 0 <= i < |ds| && ds[i] == Some(Capped(ds, cap)[k]);
    assert UrlFor(imageDir, e, m, files[i]).Some?;
  }

  /** With ".." as enterprise and machine id the image directory is the root's parent: nothing is written. */
  lemma {:induction false} DotDotIdsRejected(root: Path)
    requires root != []
    ensures ImageDir(root, "..", "..") == root[..|root| - 1]
    ensures !Under(ImageDir(root, "..", ".."), root)
  {
    assert "image/" + ".." + "/" + ".." == "image" + "/" + (".." + "/" + "..");
    SplitJoin("image", ".." + "/" + "..");
    SplitJoin("..", "..");
    SplitNoSlash("image");
    SplitNoSlash("..");
    var names := Split("image/" + ".." + "/" + "..");
    assert names == ["image", "..", ".."];
    var d1 := Step(root, "image");
    assert d1 == root + ["image"];
    var d2 := Step(d1, "..");
    assert d2 == root;
    assert NormalizeFrom(root, names) == NormalizeFrom(d1, names[1..]);
    assert names[1..][1..] == [".."];
    assert NormalizeFrom(d1, names[1..]) == NormalizeFrom(d2, [".."]);
  }

  // ---------------------------------------------------------------------------
  // deletePhoto (LocalFileStorageService.java:112-125)
  // ---------------------------------------------------------------------------

  datatype DeleteOutcome = Ignored | Deleted(target: Path) | Refused

  const MEDIA_PREFIX: string := "/media/"

  /**
   * A blank URL or one outside "/media/" is ignored; otherwise the file the
   * rest of the URL names under the root is deleted, unless it lies outside
   * the root.
   */
  function DeletePhoto(root: Path, photoUrl: Option<string>): (r: DeleteOutcome)
    ensures r == Ignored <==> !HasTextOpt(photoUrl) || !StartsWith(photoUrl.value, MEDIA_PREFIX)
    ensures r.Deleted? ==> Under(r.target, root)
  {
    if !HasTextOpt(photoUrl) || !StartsWith(photoUrl.value, MEDIA_PREFIX) then Ignored
    else
      var target := Resolve(root, photoUrl.value[|MEDIA_PREFIX|..]);
      if !Under(target, root) then Refused else Deleted(target)
  }

  /** The served URL is "/media/" followed by the image directory text and the file name. */
  lemma PhotoUrlText(e: string, m: string, name: string)
    ensures "/media/image/" + e + "/" + m + "/" + name == MEDIA_PREFIX + (("image/" + e + "/" + m) + "/" + name)
  {
  }

  /** A "/media/" URL has text and is not ignored. */
  lemma MediaUrlHasText(url: string)
    requires StartsWith(url, MEDIA_PREFIX)
    ensures HasText(url)
  {
    assert url[0] == MEDIA_PREFIX[0];
    assert !IsWhitespace(url[0]);
  }

  /**
   * Round trip: the URL a photo is served under, handed back to
   * `deletePhoto`, deletes the very file that was written, as long as the
   * ids and the file name hold no backslash and the name is relative.
   */
  lemma DeleteFindsSavedPhoto(root: Path, e: string, m: string, name: string)
    requires Under(ImageDir(root, e, m), root)
    requires Under(Resolve(ImageDir(root, e, m), name), ImageDir(root, e, m))
    requires '\\' !in e && '\\' !in m && '\\' !in name
    requires !(|name| > 0 && name[0] == '/')
    ensures DeletePhoto(root, Some(PhotoUrl(e, m, name))) == Deleted(Resolve(ImageDir(root, e, m), name))
  {
    var rel := ("image/" + e + "/" + m) + "/" + name;
    ServedUrlShape(e, m, name);
    RelativePartResolves(root, e, m, name);
    var dir := ImageDir(root, e, m);
    var target := Resolve(dir, name);
    assert target[..|root|] == target[..|dir|][..|root|];
  }

  /** Without backslashes the served URL is "/media/" and the relative text, and it has text. */
  lemma ServedUrlShape(e: string, m: string, name: string)
    requires '\\' !in e && '\\' !in m && '\\' !in name
    ensures var url := PhotoUrl(e, m, name);
            && StartsWith(url, MEDIA_PREFIX) && HasText(url)
            && url[|MEDIA_PREFIX|..] == ("image/" + e + "/" + m) + "/" + name
  {
    var rel := ("image/" + e + "/" + m) + "/" + name;
    var url := MEDIA_PREFIX + rel;
    PhotoUrlText(e, m, name);
    assert '\\' !in url;
    NoBackslashUnchanged(url);
    assert url[..|MEDIA_PREFIX|] == MEDIA_PREFIX && url[|MEDIA_PREFIX|..] == rel;
    MediaUrlHasText(url);
  }

  /** The relative text of the URL resolves under the root to the file written in the image directory. */
  lemma RelativePartResolves(root: Path, e: string, m: string, name: string)
    requires !(|name| > 0 && name[0] == '/')
    ensures Resolve(root, ("image/" + e + "/" + m) + "/" + name) == Resolve(ImageDir(root, e, m), name)
  {
    var dirText := "image/" + e + "/" + m;
    var rel := dirText + "/" + name;
    assert rel[0] == 'i';
    SplitJoin(dirText, name);
    NormalizeConcat(root, Split(dirText), Split(name));
  }

  lemma NoBackslashUnchanged(s: string)
    requires '\\' !in s
    ensures ReplaceChar(s, '\\', '/') == s
  {
  }
}
