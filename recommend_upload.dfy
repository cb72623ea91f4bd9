/** An administrator replacing the recommended cards
    (`app/api/admin/peiwan-cards/recommend/route.ts`): between one and eight non-empty
    files are accepted, the folder is emptied, and the files are written one after the
    other under their normalised names until one has an unusable name or extension. */
module RecommendUpload {
  import opened Wrappers
  import opened Text
  import opened Session
  import opened Admin
  import Money
  import RecommendListing

  const MAX_FILES: nat := 8
  const ALLOWED_EXTS: seq<string> := [".png", ".jpg", ".jpeg", ".gif", ".webp"]

  const ERR_FORBIDDEN := "无权访问"
  const ERR_NO_FILES := "请至少上传 1 个文件"
  const ERR_TOO_MANY := "最多只能上传 " + NatToDigits(MAX_FILES) + " 个文件"
  const ERR_BAD_NAME := "存在无法识别的文件名"
  const ERR_BAD_TYPE := "不支持的文件类型："

  type Bytes = seq<bv8>

  /** An entry of the form data under `files`: a file, or a plain string. */
  datatype FormEntry = FileEntry(name: string, content: Bytes) | TextEntry(value: string)

  datatype Upload = Upload(name: string, content: Bytes)

  datatype Outcome =
    | Forbidden
    | NoFiles
    | TooMany
    | BadName
    | BadType(ext: string)
    | Saved(saved: seq<string>)

  datatype Reply = Reply(status: int, error: Option<string>)

  function ReplyOf(o: Outcome): (r: Reply)
    ensures r.status == 200 <==> o.Saved?
    ensures r.status == 403 <==> o.Forbidden?
    ensures o.BadType? ==> r.error == Some(ERR_BAD_TYPE + o.ext)
  {
    match o
    case Forbidden => Reply(403, Some(ERR_FORBIDDEN))
    case NoFiles => Reply(400, Some(ERR_NO_FILES))
    case TooMany => Reply(400, Some(ERR_TOO_MANY))
    case BadName => Reply(400, Some(ERR_BAD_NAME))
    case BadType(ext) => Reply(400, Some(ERR_BAD_TYPE + ext))
    case Saved(_) => Reply(200, None)
  }

  /** `formData.getAll('files').flatMap(...)`: the files with a positive size, in order. */
  function Uploads(entries: seq<FormEntry>): (files: seq<Upload>)
    ensures |files| <= |entries|
    ensures forall f :: f in files ==> |f.content| > 0 && FileEntry(f.name, f.content) in entries
    ensures forall e :: e in entries && e.FileEntry? && |e.content| > 0 ==> Upload(e.name, e.content) in files
  {
    if entries == [] then []
    else
      var rest := Uploads(entries[1..]);
      assert forall e :: e in entries[1..] ==> e in entries;
      var e := entries[0];
      if e.FileEntry? && |e.content| > 0 then [Upload(e.name, e.content)] + rest else rest
  }

  /** What follows the last slash of `p`, which does not end in one. */
  function LastPart(p: string): (b: string)
    ensures |b| <= |p| && b == p[|p| - |b|..] && '/' !in b
    ensures |b| < |p| ==> p[|p| - |b| - 1] == '/'
  {
    if p == [] || p[|p| - 1] == '/' then []
    else
      var init := LastPart(p[..|p| - 1]);
      assert p[..|p| - 1][|p| - 1 - |init|..] + [p[|p| - 1]] == p[|p| - |init| - 1..];
      init + [p[|p| - 1]]
  }

  /** `path.basename` (POSIX): trailing slashes are dropped, then what follows the last
      slash is kept; a path of slashes only has an empty base name. */
  function Basename(p: string): (b: string)
    ensures '/' !in b
    ensures b == [] <==> forall i :: 0 <= i < |p| ==> p[i] == '/'
  {
    if p == [] then []
    else if p[|p| - 1] == '/' then
      var b := Basename(p[..|p| - 1]);
      assert forall i :: 0 <= i < |p| - 1 ==> p[..|p| - 1][i] == p[i];
      b
    else
      var b := LastPart(p);
      assert b[|b| - 1] == p[|p| - 1];
      b
  }

  /** A name without slashes is its own base name, also at the end of a directory path. */
  lemma BasenameOfFile(dir: string, name: string)
    requires name != [] && '/' !in name
    ensures Basename(name) == name
    ensures Basename(dir + "/" + name) == name
  {
    LastPartWhole(name);
    var p := dir + "/" + name;
    assert p[|p| - 1] == name[|name| - 1];
    LastPartAfter(dir + "/", name);
  }

  lemma {:induction false} LastPartWhole(name: string)
    requires '/' !in name
    ensures LastPart(name) == name
  {
    if name != [] {
      assert name[|name| - 1] in name;
      LastPartWhole(name[..|name| - 1]);
      assert name[..|name| - 1] + [name[|name| - 1]] == name;
    }
  }

  lemma {:induction false} LastPartAfter(dir: string, name: string)
    requires dir != [] && dir[|dir| - 1] == '/' && '/' !in name
    ensures LastPart(dir + name) == name
  {
    var p := dir + name;
    if name == [] {
      assert p == dir;
    } else {
      var init, last := name[..|name| - 1], name[|name| - 1];
      assert name == init + [last];
      assert last != '/' && '/' !in init;
      assert p[|p| - 1] == last;
      assert p[..|p| - 1] == dir + init;
      LastPartAfter(dir, init);
    }
  }

  /** `.replace(/\s+/g, '_')`: every run of white space becomes one underscore. */
  function Underscored(s: string): (r: string)
    ensures |r| <= |s| && (r == [] <==> s == [])
    ensures forall i :: 0 <= i < |r| ==> !IsSpace(r[i])
    ensures forall i :: 0 <= i < |r| && r[i] != '_' ==> r[i] in s
    decreases |s|
  {
    if s == [] then []
    else if IsSpace(s[0]) then
      var t := TrimStart(s);
      assert |t| < |s|;
      var rest := Underscored(t);
      assert forall c :: c in t ==> c in s;
      "_" + rest
    else
      var rest := Underscored(s[1..]);
      assert forall c :: c in s[1..] ==> c in s;
      [s[0]] + rest
  }

  /** A name without white space is left as it is, so the replacement is idempotent. */
  lemma {:induction false} UnderscoredPlain(s: string)
    requires forall i :: 0 <= i < |s| ==> !IsSpace(s[i])
    ensures Underscored(s) == s
  {
    if s != [] {
      UnderscoredPlain(s[1..]);
    }
  }

  lemma UnderscoredIdempotent(s: string)
    ensures Underscored(Underscored(s)) == Underscored(s)
  {
    UnderscoredPlain(Underscored(s));
  }

  /** `normalizeFileName`: `null` when the base name is empty. */
  function NormalizeFileName(name: string): (r: Option<string>)
    ensures r.None? <==> forall i :: 0 <= i < |name| ==> name[i] == '/'
    ensures r.Some? ==> r.value != [] && '/' !in r.value
    ensures r.Some? ==> forall i :: 0 <= i < |r.value| ==> !IsSpace(r.value[i])
  {
    var base := Basename(name);
    if base == [] then None
    else
      var r := Underscored(base);
      assert forall i :: 0 <= i < |r| ==> r[i] != '/' by {
        forall i | 0 <= i < |r|
          ensures r[i] != '/'
        {
          if r[i] != '_' {
            assert r[i] in base;
          }
        }
      }
      Some(r)
  }

  /** `path.extname` of a base name: from the last dot to the end, except that a name
      without a dot, with its only dot in front, or `..` has none. */
  function Extname(b: string): (ext: string)
    requires '/' !in b
    ensures ext == [] || (ext[0] == '.' && EndsWith(b, ext) && |ext| < |b| && '.' !in ext[1..])
  {
    if '.' !in b then []
    else
      var d := LastIndexOf(b, '.');
      if d == 0 || b == ".." then [] else b[d..]
  }

  /** The checks on one file: its normalised name, or the failure. */
  function Checked(f: Upload): Result<string, Outcome> {
    match NormalizeFileName(f.name)
    case None => Err(BadName)
    case Some(n) =>
      var ext := ToLower(Extname(n));
      if ext in ALLOWED_EXTS then Ok(n) else Err(BadType(ext))
  }

  /** A file passes with its normalised name when that name has an accepted extension;
      otherwise the failure says whether the name or the extension is wrong. */
  lemma CheckedMeans(f: Upload)
    ensures Checked(f).Ok? ==>
              NormalizeFileName(f.name) == Some(Checked(f).value) && ToLower(Extname(Checked(f).value)) in ALLOWED_EXTS
    ensures Checked(f) == Err(BadName) <==> NormalizeFileName(f.name).None?
    ensures Checked(f).Err? && Checked(f) != Err(BadName) ==>
              && NormalizeFileName(f.name).Some?
              && Checked(f).error == BadType(ToLower(Extname(NormalizeFileName(f.name).value)))
              && Checked(f).error.ext !in ALLOWED_EXTS
  {
  }

  /** The run of the loop: the names written, and the failure that stopped it. */
  datatype Run = Run(saved: seq<string>, stop: Option<Outcome>)

  /** The loop over the checks' results: names until the first failure. */
  function RunOf(results: seq<Result<string, Outcome>>): (p: Run)
    ensures |p.saved| <= |results|
    ensures forall i :: 0 <= i < |p.saved| ==> results[i] == Ok(p.saved[i])
    ensures p.stop.None? ==> |p.saved| == |results|
    ensures p.stop.Some? ==> |p.saved| < |results| && results[|p.saved|] == Err(p.stop.value)
  {
    if results == [] then Run([], None)
    else match results[0]
      case Err(e) => Run([], Some(e))
      case Ok(n) =>
        var rest := RunOf(results[1..]);
        Run([n] + rest.saved, rest.stop)
  }

  function Checks(files: seq<Upload>): (r: seq<Result<string, Outcome>>)
    ensures |r| == |files| && forall i :: 0 <= i < |files| ==> r[i] == Checked(files[i])
  {
    seq(|files|, i requires 0 <= i < |files| => Checked(files[i]))
  }

  function Planned(files: seq<Upload>): Run {
    RunOf(Checks(files))
  }

  /** The folder after writing `files[i]` under `names[i]`, one after the other, into an
      empty folder: a later file with the same name replaces an earlier one. */
  function Stored(files: seq<Upload>, names: seq<string>): (m: map<string, Bytes>)
    requires |names| <= |files|
    ensures forall n :: n in m <==> n in names
    decreases |names|
  {
    if names == [] then map[]
    else
      var k := |names| - 1;
      var before := Stored(files, names[..k]);
      assert forall n :: n in names <==> n in names[..k] || n == names[k];
      before[names[k] := files[k].content]
  }

  lemma StoredStep(files: seq<Upload>, names: seq<string>, name: string)
    requires |names| < |files|
    ensures Stored(files, names + [name]) == Stored(files, names)[name := files[|names|].content]
  {
    assert (names + [name])[..|names|] == names;
  }

  /** The public `peiwanRecommend` folder: its entries by name. */
  class Folder {
    var files: map<string, Bytes>

    constructor (files: map<string, Bytes>)
      ensures this.files == files
    {
      this.files := files;
    }

    /** `fs.readdir` and `fs.rm` on every entry. */
    method Clear()
      modifies this
      ensures files == map[]
    {
      files := map[];
    }

    /** `fs.writeFile`, which replaces a file of the same name. */
    method Write(name: string, content: Bytes)
      modifies this
      ensures files == old(files)[name := content]
    {
      files := files[name := content];
    }
  }

  /** `POST`. The folder is emptied once the number of files is right, before any file's
      name is looked at, so a rejected file leaves the folder with the files before it. */
  method UploadRecommended(folder: Folder, session: Option<Snapshot>, admins: seq<string>, entries: seq<FormEntry>)
    returns (outcome: Outcome)
    modifies folder
    ensures AdminSession(session, admins).None? ==> outcome == Forbidden && folder.files == old(folder.files)
    ensures AdminSession(session, admins).Some? && |Uploads(entries)| == 0 ==>
              outcome == NoFiles && folder.files == old(folder.files)
    ensures AdminSession(session, admins).Some? && |Uploads(entries)| > MAX_FILES ==>
              outcome == TooMany && folder.files == old(folder.files)
    ensures AdminSession(session, admins).Some? && 1 <= |Uploads(entries)| <= MAX_FILES ==>
              var run := Planned(Uploads(entries));
              && folder.files == Stored(Uploads(entries), run.saved)
              && outcome == (if run.stop.Some? then run.stop.value else Saved(run.saved))
  {
    if AdminSession(session, admins).None? {
      return Forbidden;
    }
    var files := Uploads(entries);
    if |files| == 0 {
      return NoFiles;
    }
    if |files| > MAX_FILES {
      return TooMany;
    }
    folder.Clear();
    outcome := WriteFiles(folder, files);
  }

  /** The loop: each file is checked and written in turn, and the first failure ends the
      request with what was written so far left in the folder. */
  method WriteFiles(folder: Folder, files: seq<Upload>) returns (outcome: Outcome)
    modifies folder
    requires folder.files == map[]
    ensures folder.files == Stored(files, Planned(files).saved)
    ensures outcome == if Planned(files).stop.Some? then Planned(files).stop.value else Saved(Planned(files).saved)
  {
    ghost var results := Checks(files);
    var saved: seq<string> := [];
    var i := 0;
    while i < |files|
      invariant 0 <= i <= |files| && |saved| == i
      invariant forall k :: 0 <= k < i ==> results[k] == Ok(saved[k])
      invariant folder.files == Stored(files, saved)
    {
      var checked := Checked(files[i]);
      assert checked == results[i];
      if checked.Err? {
        RunStops(results, saved);
        return checked.error;
      }
      StoredStep(files, saved, checked.value);
      folder.Write(checked.value, files[i].content);
      saved := saved + [checked.value];
      i := i + 1;
    }
    RunStops(results, saved);
    outcome := Saved(saved);
  }

  /** The run is fixed by the first result that is a failure. */
  lemma RunStops(results: seq<Result<string, Outcome>>, saved: seq<string>)
    requires |saved| <= |results|
    requires forall k :: 0 <= k < |saved| ==> results[k] == Ok(saved[k])
    requires |saved| < |results| ==> results[|saved|].Err?
    ensures RunOf(results).saved == saved
    ensures |saved| < |results| ==> RunOf(results).stop == Some(results[|saved|].error)
    ensures |saved| == |results| ==> RunOf(results).stop.None?
  {
    var p := RunOf(results);
    assert |p.saved| == |saved|;
    assert forall k :: 0 <= k < |saved| ==> p.saved[k] == saved[k];
  }

  /** After an upload that got past the count checks the folder holds the names written
      and nothing that was there before, every name free of slashes and white space with
      an accepted extension. */
  lemma StoredNamesAreClean(files: seq<Upload>, n: string)
    requires n in Stored(files, Planned(files).saved)
    ensures n in Planned(files).saved
    ensures n != [] && '/' !in n && ToLower(Extname(n)) in ALLOWED_EXTS
    ensures forall i :: 0 <= i < |n| ==> !IsSpace(n[i])
  {
    var saved := Planned(files).saved;
    var k :| 0 <= k < |saved| && saved[k] == n;
    assert Checks(files)[k] == Ok(n);
    CheckedMeans(files[k]);
  }

  /** The uploader accepts `.webp`, but the listing only shows png, jpg, jpeg and gif, so
      a `.webp` card is stored and never listed. */
  lemma WebpNeverListed(n: string)
    requires '/' !in n && ToLower(Extname(n)) == ".webp"
    ensures RecommendListing.EntryOf(n).None?
  {
    if RecommendListing.NumberedImage(n).Some? {
      ListedExtension(n);
    }
  }

  /** A listed name's extension is the dot and one of the listed alternatives. */
  lemma ListedExtension(n: string)
    requires '/' !in n && RecommendListing.NumberedImage(n).Some?
    ensures ToLower(Extname(n)) != ".webp"
  {
    var k := Money.SpanDigits(n);
    var tail := n[k + 1..];
    assert ToLower(tail) in RecommendListing.LISTED_EXTS;
    assert '.' !in tail by {
      forall j | 0 <= j < |tail|
        ensures tail[j] != '.'
      {
        assert ToLower(tail)[j] == LowerChar(tail[j]);
      }
    }
    assert n[k] == '.';
    assert LastIndexOf(n, '.') == k;
    assert Extname(n) == n[k..];
    assert ToLower(Extname(n))[1..] == ToLower(tail);
  }
}
