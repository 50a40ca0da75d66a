/** toGoogleAppScriptFormat (src/GoogleAppsScriptManager.js:25-77): the local
    files of an application directory as the entries of an Apps Script project.
    The directory listing and the file contents are inputs. */
module ScriptFormat {
  import opened Wrappers
  import Text

  /** The index of the last '.' of a name. */
  function LastDot(s: string): (r: Option<nat>)
    ensures r.Some? ==> r.value < |s| && s[r.value] == '.' && forall j :: r.value < j < |s| ==> s[j] != '.'
    ensures r.None? ==> forall j :: 0 <= j < |s| ==> s[j] != '.'
  {
    if s == [] then None
    else if s[|s| - 1] == '.' then Some(|s| - 1)
    else LastDot(s[..|s| - 1])
  }

  /** Node's path.extname on a directory entry (a name with no '/'): from the
      last '.' to the end, except that a name with no dot, a name whose only
      leading part before that dot is empty (".js", ".profile") and ".." have none. */
  function Extname(s: string): (r: string)
    ensures |r| <= |s| && r == s[|s| - |r|..]
    ensures r != [] ==> r[0] == '.' && |r| < |s|
  {
    match LastDot(s)
    case None => ""
    case Some(d) => if d == 0 || s == ".." then "" else s[d..]
  }

  /** The file name without its extension: path.basename(f, path.extname(f)). */
  function Stem(f: string): (r: string)
    ensures r + Extname(f) == f
  {
    f[..|f| - |Extname(f)|]
  }

  /** The upload filter: the lower-cased extension is ".js" or ".html". */
  predicate IsScriptFile(f: string) {
    var e := Text.Lower(Extname(f));
    e == ".js" || e == ".html"
  }

  /** The names of the listing that pass the filter, in listing order. */
  function ScriptFiles(listing: seq<string>): (r: seq<string>)
    ensures |r| <= |listing|
  {
    if listing == [] then []
    else (if IsScriptFile(listing[0]) then [listing[0]] else []) + ScriptFiles(listing[1..])
  }

  /** A name is kept iff it is listed and passes the filter. */
  lemma {:induction false} ScriptFilesMembers(listing: seq<string>)
    ensures forall f :: f in ScriptFiles(listing) <==> f in listing && IsScriptFile(f)
  {
    if listing != [] {
      ScriptFilesMembers(listing[1..]);
      assert listing == [listing[0]] + listing[1..];
    }
  }

  /** Filtering a concatenation filters each part and keeps their order. */
  lemma {:induction false} ScriptFilesAppend(a: seq<string>, b: seq<string>)
    ensures ScriptFiles(a + b) == ScriptFiles(a) + ScriptFiles(b)
  {
    if a == [] {
      assert a + b == b;
    } else {
      var head := if IsScriptFile(a[0]) then [a[0]] else [];
      assert (a + b)[0] == a[0] && (a + b)[1..] == a[1..] + b;
      assert ScriptFiles(a + b) == head + ScriptFiles(a[1..] + b);
      ScriptFilesAppend(a[1..], b);
      assert head + (ScriptFiles(a[1..]) + ScriptFiles(b)) == (head + ScriptFiles(a[1..])) + ScriptFiles(b);
    }
  }

  /** A single name is kept exactly when it passes the filter. */
  lemma ScriptFilesSingle(f: string)
    ensures ScriptFiles([f]) == if IsScriptFile(f) then [f] else []
  {
    assert [f][1..] == [];
  }

  /** The filter keeps nothing iff no listed name passes it. */
  lemma ScriptFilesEmpty(listing: seq<string>)
    ensures ScriptFiles(listing) == [] <==> forall f :: f in listing ==> !IsScriptFile(f)
  {
    ScriptFilesMembers(listing);
    if ScriptFiles(listing) != [] {
      assert ScriptFiles(listing)[0] in ScriptFiles(listing);
    }
  }

  const ServerJs: string := "server_js"

  /** One file of an Apps Script project; `id` is set only by reconciliation. */
  datatype Entry = Entry(name: string, entryType: string, source: string, id: Option<string>)

  /** The project object `{files: [...]}` whose JSON text is uploaded. */
  datatype AppScript = AppScript(files: seq<Entry>)

  datatype FormatError =
    | UnreadableDirectory(appPath: string, reason: string)   // fs.readdir failed; its error is rethrown
    | NoScriptFiles(appPath: string)

  /** The message of the error toGoogleAppScriptFormat throws itself. */
  function ErrorMessage(e: FormatError): string {
    match e
    case UnreadableDirectory(_, reason) => reason
    case NoScriptFiles(appPath) => "No *.js nor *.html file into the application path " + appPath + "\""
  }

  function EntryOf(f: string, read: string -> string): Entry {
    Entry(Stem(f), ServerJs, read(f), None)
  }

  function Entries(files: seq<string>, read: string -> string): seq<Entry> {
    seq(|files|, i requires 0 <= i < |files| => EntryOf(files[i], read))
  }

  /** toGoogleAppScriptFormat(appPath), given the directory listing (or the
      reason it could not be read) and the contents of each file. */
  function ToAppScriptFormat(appPath: string, listing: Result<seq<string>, string>,
                             read: string -> string): Result<AppScript, FormatError>
  {
    match listing
    case Err(reason) => Err(UnreadableDirectory(appPath, reason))
    case Ok(names) =>
      var files := ScriptFiles(names);
      if files == [] then Err(NoScriptFiles(appPath)) else Ok(AppScript(Entries(files, read)))
  }

  /** The conversion fails iff the directory cannot be read or holds no
      .js/.html file; otherwise there is one entry per kept file, in order,
      named by the file name minus its extension, of type "server_js", holding
      the file's content and no id. */
  lemma FormatResult(appPath: string, listing: Result<seq<string>, string>, read: string -> string)
    ensures var r := ToAppScriptFormat(appPath, listing, read);
      && (r.Err? <==> listing.Err? || forall f :: f in listing.value ==> !IsScriptFile(f))
      && (listing.Err? ==> r == Err(UnreadableDirectory(appPath, listing.error)))
      && (r.Ok? ==>
            var files := ScriptFiles(listing.value);
            |r.value.files| == |files| > 0
            && forall i :: 0 <= i < |files| ==>
                 && IsScriptFile(files[i]) && files[i] in listing.value
                 && r.value.files[i].name + Extname(files[i]) == files[i]
                 && r.value.files[i].entryType == "server_js"
                 && r.value.files[i].source == read(files[i])
                 && r.value.files[i].id == None)
  {
    if listing.Ok? {
      ScriptFilesEmpty(listing.value);
      ScriptFilesMembers(listing.value);
      var files := ScriptFiles(listing.value);
      forall i | 0 <= i < |files| ensures IsScriptFile(files[i]) && files[i] in listing.value {
        assert files[i] in files;
      }
    }
  }

  /** A name "stem.ext" whose ext has no dot has extension ".ext" and stem
      "stem", unless it is ".." or the stem is empty. */
  lemma ExtnameOf(stem: string, ext: string)
    requires stem != [] && '.' !in ext && !(stem == "." && ext == "")
    ensures Extname(stem + "." + ext) == "." + ext
    ensures Stem(stem + "." + ext) == stem
  {
    var s := stem + "." + ext;
    assert s[|stem|] == '.';
    forall j | |stem| < j < |s| ensures s[j] != '.' {
      assert s[j] == ext[j - |stem| - 1];
    }
    var d := LastDot(s);
    assert d == Some(|stem|);
    assert s != ".." by {
      if |stem| == 1 && ext == [] {
        assert stem[0] != '.';
        assert s[0] == stem[0];
      }
    }
    assert s[|stem|..] == "." + ext;
  }

  /** A hidden file ".ext" whose ext has no dot has no extension, so the
      filter drops it whatever ext is. */
  lemma HiddenFileDropped(ext: string)
    requires '.' !in ext
    ensures Extname("." + ext) == ""
    ensures !IsScriptFile("." + ext)
  {
    var s := "." + ext;
    forall j | 0 < j < |s| ensures s[j] != '.' {
      assert s[j] == ext[j - 1];
    }
    assert s[0] == '.';
    assert LastDot(s) == Some(0);
  }
}
