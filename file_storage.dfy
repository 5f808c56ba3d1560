/** The string part of the upload store (`FileStorageService`): the refusal of
    ".." in a file name, the extension kept from the original name, the URL
    handed back to the caller, and the path a URL is deleted by. Directory
    creation, copying, UUID generation and path resolution are not modelled;
    the generated name is a parameter. */
module FileStorage {
  import opened Wrappers
  import opened Text

  const UploadsPrefix: string := "/uploads"

  /** The suffix from the last '.', when that '.' is not the first character. */
  function Extension(name: string): (ext: string)
    ensures ext != [] ==>
      ext[0] == '.' && |ext| < |name| && ext == name[|name| - |ext|..] &&
      forall k :: 1 <= k < |ext| ==> ext[k] != '.'
    ensures ext == [] <==> forall k :: 0 < k < |name| ==> name[k] != '.'
  {
    var i := LastIndexOf(name, '.');
    if i > 0 then name[i..] else ""
  }

  /** `storeFile`: the URL under which the upload is reachable, or the refusal
      of a name holding "..". */
  function StoreFile(originalName: string, folder: string, uniqueName: string): (r: Result<string>)
    ensures r.Err? <==> Contains(originalName, "..")
    ensures r.Err? ==> r.error == Runtime("Invalid path sequence in filename " + originalName)
    ensures r.Ok? ==> r.value == UploadsPrefix + "/" + folder + "/" + uniqueName + Extension(originalName)
  {
    if Contains(originalName, "..") then Err(Runtime("Invalid path sequence in filename " + originalName))
    else Ok("/uploads/" + folder + "/" + uniqueName + Extension(originalName))
  }

  /** `deleteFile`: the path, relative to the upload root, that a URL names;
      None when the URL is not under "/uploads" and nothing is deleted. */
  function DeleteTarget(url: string): (r: Option<string>)
    ensures r.None? <==> !StartsWith(url, UploadsPrefix)
    ensures r.Some? ==> UploadsPrefix + r.value == url
  {
    if StartsWith(url, UploadsPrefix) then Some(url[|UploadsPrefix|..]) else None
  }

  /** A URL handed out by StoreFile is one DeleteTarget acts on, and the path it
      deletes by is the folder, the generated name and the extension. */
  lemma DeleteTargetOfStored(originalName: string, folder: string, uniqueName: string)
    requires StoreFile(originalName, folder, uniqueName).Ok?
    ensures DeleteTarget(StoreFile(originalName, folder, uniqueName).value)
      == Some("/" + folder + "/" + uniqueName + Extension(originalName))
  {
    var url := StoreFile(originalName, folder, uniqueName).value;
    var rest := "/" + folder + "/" + uniqueName + Extension(originalName);
    assert url == UploadsPrefix + rest;
    assert url[..|UploadsPrefix|] == UploadsPrefix;
    assert url[|UploadsPrefix|..] == rest;
  }
}
