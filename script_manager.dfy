/** PrivateGoogleAppScriptManager.getAppFile, update and upload
    (src/GoogleAppsScriptManager.js:165-257). Drive is not called: the files it
    lists, the project it exports and the metadata it answers are inputs, and
    the requests the manager sends are returned in order. */
module ScriptManager {
  import opened Wrappers
  import opened ScriptFormat
  import Text

  /** APP_MIME_TYPE, and the JSON form used for export, create and update. */
  const AppMimeType: string := "application/vnd.google-apps.script"
  const AppJsonMimeType: string := AppMimeType + "+json"

  const QueryPrefix: string := "name='"
  const QuerySuffix: string := "' and mimeType='" + AppMimeType + "'"

  /** getAppFile's Drive query; the name is put in as it is, unescaped. */
  function AppFileQuery(name: string): string {
    QueryPrefix + name + QuerySuffix
  }

  /** The name can be read back from the query, so distinct names give distinct queries. */
  lemma AppFileQueryRoundTrip(name: string)
    ensures Text.Between(AppFileQuery(name), QueryPrefix, QuerySuffix) == Some(name)
  {
    Text.BetweenWrap(QueryPrefix, name, QuerySuffix);
  }

  lemma AppFileQueryInjective(a: string, b: string)
    requires AppFileQuery(a) == AppFileQuery(b)
    ensures a == b
  {
    AppFileQueryRoundTrip(a);
    AppFileQueryRoundTrip(b);
  }

  /** One file of the files.list answer. */
  datatype RemoteFile = RemoteFile(id: string, name: string)

  /** `files.files[0]`: the first listed file, or undefined when none is listed. */
  function GetAppFile(listed: seq<RemoteFile>): (r: Option<RemoteFile>)
    ensures r.None? <==> listed == []
    ensures r.Some? ==> r.value == listed[0] && r.value in listed
  {
    if listed == [] then None else Some(listed[0])
  }

  /** One file of the exported project. */
  datatype ExportedFile = ExportedFile(id: string, name: string)

  /** The metadata Drive answers to create or update. */
  datatype FileInfo = FileInfo(id: string)

  /** `files.find(f => f.name === name)`, as an index: the first entry with that name. */
  function FindName(entries: seq<Entry>, name: string): (r: Option<nat>)
    ensures r.Some? ==> r.value < |entries| && entries[r.value].name == name
                        && forall j :: 0 <= j < r.value ==> entries[j].name != name
    ensures r.None? ==> forall j :: 0 <= j < |entries| ==> entries[j].name != name
  {
    if entries == [] then None
    else if entries[0].name == name then Some(0)
    else match FindName(entries[1..], name)
      case None => None
      case Some(i) => Some(i + 1)
  }

  /** One pass of the forEach: the first local entry with the export's name
      takes its id; with no such entry nothing changes. */
  function Assign(entries: seq<Entry>, x: ExportedFile): seq<Entry> {
    match FindName(entries, x.name)
    case None => entries
    case Some(i) => entries[i := entries[i].(id := Some(x.id))]
  }

  /** The forEach over the exported files, in export order. */
  function Reconciled(entries: seq<Entry>, exports: seq<ExportedFile>): seq<Entry>
    decreases |exports|
  {
    if exports == [] then entries
    else Assign(Reconciled(entries, exports[..|exports| - 1]), exports[|exports| - 1])
  }

  /** The same entries, up to their ids. */
  predicate SameShape(a: seq<Entry>, b: seq<Entry>) {
    |a| == |b| && forall i :: 0 <= i < |a| ==>
      a[i].name == b[i].name && a[i].entryType == b[i].entryType && a[i].source == b[i].source
  }

  /** Entries of the same shape have their first match of a name at the same place. */
  lemma {:induction false} FindNameShape(a: seq<Entry>, b: seq<Entry>, name: string)
    requires SameShape(a, b)
    ensures FindName(a, name) == FindName(b, name)
  {
    if a != [] {
      FindNameShape(a[1..], b[1..], name);
    }
  }

  /** Reconciliation adds, drops and reorders no entry, and changes nothing
      but ids. */
  lemma {:induction false} ReconcileKeepsShape(entries: seq<Entry>, exports: seq<ExportedFile>)
    ensures SameShape(Reconciled(entries, exports), entries)
    decreases |exports|
  {
    if exports != [] {
      ReconcileKeepsShape(entries, exports[..|exports| - 1]);
    }
  }

  /** The last export with a given name. */
  function LastMatch(exports: seq<ExportedFile>, name: string): (r: Option<nat>)
    ensures r.Some? ==> r.value < |exports| && exports[r.value].name == name
                        && forall j :: r.value < j < |exports| ==> exports[j].name != name
    ensures r.None? ==> forall j :: 0 <= j < |exports| ==> exports[j].name != name
    decreases |exports|
  {
    if exports == [] then None
    else if exports[|exports| - 1].name == name then Some(|exports| - 1)
    else LastMatch(exports[..|exports| - 1], name)
  }

  /** After reconciliation an entry carries the id of the last export with
      its name when it is the first local entry with that name; every other
      entry keeps the id it had. */
  lemma {:induction false} ReconciledId(entries: seq<Entry>, exports: seq<ExportedFile>, i: nat)
    requires i < |entries|
    ensures i < |Reconciled(entries, exports)|
    ensures Reconciled(entries, exports)[i].id ==
      var m := LastMatch(exports, entries[i].name);
      if FindName(entries, entries[i].name) == Some(i) && m.Some? then Some(exports[m.value].id)
      else entries[i].id
    decreases |exports|
  {
    ReconcileKeepsShape(entries, exports);
    if exports != [] {
      var init := exports[..|exports| - 1];
      var x := exports[|exports| - 1];
      var prev := Reconciled(entries, init);
      ReconciledId(entries, init, i);
      ReconcileKeepsShape(entries, init);
      FindNameShape(prev, entries, x.name);
      FindNameShape(prev, entries, entries[i].name);
    }
  }

  /** The forEach of update, on the project's file array in place. */
  method Reconcile(files: array<Entry>, exports: seq<ExportedFile>)
    modifies files
    ensures files[..] == Reconciled(old(files[..]), exports)
  {
    ghost var start := files[..];
    assert exports[..0] == [];
    var k := 0;
    while k < |exports|
      invariant 0 <= k <= |exports|
      invariant files[..] == Reconciled(start, exports[..k])
    {
      var x := exports[k];
      assert exports[..k + 1][..k] == exports[..k];
      var found := FindName(files[..], x.name);
      if found.Some? {
        var i := found.value;
        files[i] := files[i].(id := Some(x.id));
      }
      k := k + 1;
    }
    assert exports[..k] == exports;
  }

  /** A request sent to Drive. */
  datatype DriveCall =
    | ListFiles(query: string)
    | CreateFile(name: string, mimeType: string, content: AppScript)
    | ExportFile(fileId: string, mimeType: string)
    | UpdateFile(fileId: string, mimeType: string, content: AppScript)

  /** update(appScriptObject, appFile): export the project, copy the remote
      ids onto the local entries, and send the result. */
  method Update(app: AppScript, appFile: RemoteFile, exported: seq<ExportedFile>, written: FileInfo)
    returns (calls: seq<DriveCall>, info: FileInfo)
    ensures calls == [ExportFile(appFile.id, AppJsonMimeType),
                      UpdateFile(appFile.id, AppJsonMimeType, AppScript(Reconciled(app.files, exported)))]
    ensures info == written
  {
    calls := [ExportFile(appFile.id, AppJsonMimeType)];
    var files := new Entry[|app.files|](i requires 0 <= i < |app.files| => app.files[i]);
    assert files[..] == app.files;
    Reconcile(files, exported);
    calls := calls + [UpdateFile(appFile.id, AppJsonMimeType, AppScript(files[..]))];
    info := written;
  }

  /** In the project update sends, a freshly converted local file carries the
      id of the last exported file with its name when it is the first local
      file with that name, and no id otherwise. */
  lemma UpdatedEntryId(appPath: string, listing: Result<seq<string>, string>, read: string -> string,
                       exported: seq<ExportedFile>, i: nat)
    requires ToAppScriptFormat(appPath, listing, read).Ok?
    requires i < |ToAppScriptFormat(appPath, listing, read).value.files|
    ensures var files := ToAppScriptFormat(appPath, listing, read).value.files;
      var m := LastMatch(exported, files[i].name);
      i < |Reconciled(files, exported)|
      && Reconciled(files, exported)[i].id ==
           if FindName(files, files[i].name) == Some(i) && m.Some? then Some(exported[m.value].id) else None
  {
    FormatResult(appPath, listing, read);
    ReconciledId(ToAppScriptFormat(appPath, listing, read).value.files, exported, i);
  }

  const EditPrefix: string := "https://script.google.com/d/"
  const EditSuffix: string := "/edit"

  /** The editor address of a script file. */
  function EditUrl(id: string): string {
    EditPrefix + id + EditSuffix
  }

  /** The file id can be read back from the editor address. */
  lemma EditUrlRoundTrip(id: string)
    ensures Text.Between(EditUrl(id), EditPrefix, EditSuffix) == Some(id)
  {
    Text.BetweenWrap(EditPrefix, id, EditSuffix);
  }

  /** `{app, upload: {fileInfo, status}}`. */
  datatype UploadResult = UploadResult(app: string, fileInfo: FileInfo, status: string)

  /** upload({name, appPath}): list the app file and convert the directory;
      a failed conversion fails the upload; then create the project when no
      app file is listed and update it otherwise, and answer its editor address. */
  method Upload(name: string, appPath: string, listing: Result<seq<string>, string>, read: string -> string,
                listed: seq<RemoteFile>, exported: seq<ExportedFile>, written: FileInfo)
    returns (calls: seq<DriveCall>, r: Result<UploadResult, FormatError>)
    ensures |calls| >= 1 && calls[0] == ListFiles(AppFileQuery(name))
    ensures var f := ToAppScriptFormat(appPath, listing, read);
      && (f.Err? ==> calls == [ListFiles(AppFileQuery(name))] && r == Err(f.error))
      && (f.Ok? ==> r == Ok(UploadResult(EditUrl(written.id), written, "success")))
      && (f.Ok? && GetAppFile(listed).None? ==>
            calls == [ListFiles(AppFileQuery(name)), CreateFile(name, AppJsonMimeType, f.value)])
      && (f.Ok? && GetAppFile(listed).Some? ==>
            var id := GetAppFile(listed).value.id;
            calls == [ListFiles(AppFileQuery(name)), ExportFile(id, AppJsonMimeType),
                      UpdateFile(id, AppJsonMimeType, AppScript(Reconciled(f.value.files, exported)))])
  {
    var format := ToAppScriptFormat(appPath, listing, read);
    calls := [ListFiles(AppFileQuery(name))];
    var appFile := GetAppFile(listed);
    if format.Err? {
      return calls, Err(format.error);
    }
    var fileMetadata: FileInfo;
    if appFile.None? {
      calls := calls + [CreateFile(name, AppJsonMimeType, format.value)];
      fileMetadata := written;
    } else {
      var more;
      more, fileMetadata := Update(format.value, appFile.value, exported, written);
      calls := calls + more;
    }
    r := Ok(UploadResult(EditUrl(fileMetadata.id), fileMetadata, "success"));
  }
}
