/**
 * The goals panel (components/GoalsPanel.tsx): one card per horizon (year, month, week,
 * day) whose text is edited in place and saved trimmed, the check an image file must pass
 * before it is uploaded, and the storage path the upload is written to.
 */
module GoalsPanel {
  import opened Types
  import opened Text

  /** 'year' | 'month' | 'week' | 'day'. */
  datatype GoalType = Year | Month | Week | Day

  function TypeName(t: GoalType): (r: string)
    ensures r != [] && '.' !in r && '/' !in r
  {
    match t
    case Year => "year"
    case Month => "month"
    case Week => "week"
    case Day => "day"
  }

  /** The largest image accepted: 2 MiB. */
  const MaxImageBytes: nat := 2 * 1024 * 1024

  /** What the file picker reports about a chosen file. */
  datatype FileInfo = FileInfo(name: string, mimeType: string, size: nat)

  /** How handleFileChange disposes of a pick. */
  datatype FileCheck = NoFile | NotImage | TooLarge | Accepted

  /**
   * The validation in handleFileChange: nothing picked, a type not under `image/`, or more
   * than 2 MiB (the only case that alerts) stop it; anything else is uploaded.
   */
  function CheckFile(file: Option<FileInfo>): (r: FileCheck)
    ensures r == NoFile <==> file.None?
    ensures r == NotImage <==> file.Some? && !("image/" <= file.value.mimeType)
    ensures r == TooLarge <==> file.Some? && "image/" <= file.value.mimeType && file.value.size > MaxImageBytes
    ensures r == Accepted <==> file.Some? && "image/" <= file.value.mimeType && file.value.size <= MaxImageBytes
  {
    if file.None? then NoFile
    else if !("image/" <= file.value.mimeType) then NotImage
    else if file.value.size > MaxImageBytes then TooLarge
    else Accepted
  }

  /** `file.name.split('.').pop()`: the text after the last dot, or the whole name without one. */
  function FileExtension(name: string): (r: string)
    ensures '.' !in r
    ensures '.' !in name ==> r == name
    ensures '.' in name ==> exists k :: 0 <= k < |name| && name[k] == '.' && r == name[k + 1..]
  {
    LastPiece(name, '.')
  }

  /** The storage path: the user's folder, then `<type>_<timestamp>.<ext>`. */
  function UploadPath(userId: string, t: GoalType, timestamp: nat, ext: string): (r: string)
    ensures userId + "/" <= r
    ensures '.' !in ext ==> FileExtension(r) == ext
  {
    var stem := userId + "/" + TypeName(t) + "_" + DecimalString(timestamp);
    assert stem + "." + ext == stem + ['.'] + ext;
    assert '.' !in ext ==> LastPiece(stem + ['.'] + ext, '.') == ext by {
      if '.' !in ext {
        LastPieceAfterSeparator(stem, ext, '.');
      }
    }
    stem + "." + ext
  }

  /** The uploaded object keeps the picked file's extension. */
  lemma UploadKeepsExtension(userId: string, t: GoalType, timestamp: nat, fileName: string)
    ensures FileExtension(UploadPath(userId, t, timestamp, FileExtension(fileName))) == FileExtension(fileName)
  {
  }

  /** For a user id without a slash, the first path segment is exactly the user's id. */
  lemma UploadFolderIsUser(userId: string, t: GoalType, timestamp: nat, ext: string)
    requires '/' !in userId
    ensures Split(UploadPath(userId, t, timestamp, ext), '/')[0] == userId
  {
    var r := UploadPath(userId, t, timestamp, ext);
    var u := r[|userId|..];
    assert r == userId + u;
    assert u[0] == '/';
    SplitPrefix(userId, u, '/');
    assert Split(u, '/')[0] == "";
  }

  /**
   * handleImageUpload up to the upload call: without a signed-in user nothing happens;
   * otherwise the path for the picked file at the current time.
   */
  function ImageUpload(userId: Option<string>, t: GoalType, now: nat, file: FileInfo): (r: Option<string>)
    ensures r.None? <==> userId.None?
    ensures r.Some? ==> userId.value + "/" <= r.value && FileExtension(r.value) == FileExtension(file.name)
  {
    if userId.None? then None
    else Some(UploadPath(userId.value, t, now, FileExtension(file.name)))
  }

  // ---------------------------------------------------------------- a goal card

  /**
   * What a save hands to onSave: the trimmed text, unless it equals the stored value, in
   * which case nothing is saved.
   */
  function SaveContent(text: string, value: string): (r: Option<string>)
    ensures r.None? <==> Trim(text) == value
    ensures r.Some? ==> r.value == Trim(text) && r.value != value
  {
    var trimmed := Trim(text);
    if trimmed == value then None else Some(trimmed)
  }

  /**
   * Once a saved text has come back as the stored value, saving it again without editing
   * saves nothing, however much white space the edit had around it.
   */
  lemma ResaveSkipped(text: string)
    ensures SaveContent(Trim(text), Trim(text)).None?
  {
    TrimIdempotent(text);
  }

  /** White space added around the stored value does not trigger a save. */
  lemma PaddingAloneSkipped(a: string, value: string, b: string)
    requires AllWhiteSpace(a) && AllWhiteSpace(b) && Trim(value) == value
    ensures SaveContent(a + value + b, value).None?
  {
    TrimOfPadded(a, value, b);
  }

  /** One goal card: the stored value and the card's editing state. */
  class GoalCard {
    var value: string
    var text: string
    var isEditing: bool
    var saving: bool
    var showSaved: bool
    var uploading: bool

    constructor (stored: string)
      ensures value == stored && text == stored
      ensures !isEditing && !saving && !showSaved && !uploading
    {
      value := stored;
      text := stored;
      isEditing := false;
      saving := false;
      showSaved := false;
      uploading := false;
    }

    /** A new stored value from the parent replaces the text being shown. */
    method ValueChanged(stored: string)
      modifies this
      ensures value == stored && text == stored
      ensures isEditing == old(isEditing) && saving == old(saving) && showSaved == old(showSaved) && uploading == old(uploading)
    {
      value := stored;
      text := stored;
    }

    /** A click on the card's text starts editing. */
    method StartEdit()
      modifies this
      ensures isEditing
      ensures value == old(value) && text == old(text) && saving == old(saving) && showSaved == old(showSaved) && uploading == old(uploading)
    {
      if !isEditing {
        isEditing := true;
      }
    }

    /** Typing in the text area. */
    method SetText(t: string)
      modifies this
      ensures text == t
      ensures value == old(value) && isEditing == old(isEditing) && saving == old(saving) && showSaved == old(showSaved) && uploading == old(uploading)
    {
      text := t;
    }

    /**
     * handleSave up to the onSave call: editing always ends; when the trimmed text differs
     * from the stored value the spinner shows and the trimmed text is returned for onSave.
     */
    method HandleSave() returns (content: Option<string>)
      modifies this
      ensures content == SaveContent(old(text), old(value))
      ensures !isEditing
      ensures saving == (old(saving) || content.Some?)
      ensures value == old(value) && text == old(text) && showSaved == old(showSaved) && uploading == old(uploading)
    {
      var trimmed := Trim(text);
      isEditing := false;
      if trimmed == value {
        return None;
      }
      saving := true;
      content := Some(trimmed);
    }

    /** onSave has returned: the spinner gives way to the "saved" mark. */
    method FinishSave()
      modifies this
      ensures !saving && showSaved
      ensures value == old(value) && text == old(text) && isEditing == old(isEditing) && uploading == old(uploading)
    {
      saving := false;
      showSaved := true;
    }

    /** The 1.5 s timer after a save hides the "saved" mark. */
    method HideSaved()
      modifies this
      ensures !showSaved
      ensures value == old(value) && text == old(text) && isEditing == old(isEditing) && saving == old(saving) && uploading == old(uploading)
    {
      showSaved := false;
    }

    /** handleKeyDown: Escape discards the edit and leaves editing; other keys change nothing. */
    method HandleKeyDown(key: string)
      modifies this
      ensures key == "Escape" ==> text == old(value) && !isEditing
      ensures key != "Escape" ==> text == old(text) && isEditing == old(isEditing)
      ensures value == old(value) && saving == old(saving) && showSaved == old(showSaved) && uploading == old(uploading)
    {
      if key == "Escape" {
        text := value;
        isEditing := false;
      }
    }

    /**
     * handleFileChange up to the upload call: an accepted file starts the upload and is
     * returned; a file over the limit raises the alert; anything else is ignored.
     */
    method HandleFileChange(file: Option<FileInfo>) returns (upload: Option<FileInfo>, alerted: bool)
      modifies this
      ensures upload.Some? <==> CheckFile(file) == Accepted
      ensures upload.Some? ==> upload == file
      ensures alerted <==> CheckFile(file) == TooLarge
      ensures uploading == (old(uploading) || upload.Some?)
      ensures value == old(value) && text == old(text) && isEditing == old(isEditing) && saving == old(saving) && showSaved == old(showSaved)
    {
      upload, alerted := None, false;
      if file.None? {
        return;
      }
      var f := file.value;
      if !("image/" <= f.mimeType) {
        return;
      }
      if f.size > 2 * 1024 * 1024 {
        alerted := true;
        return;
      }
      uploading := true;
      upload := Some(f);
    }

    /** onImageUpload has returned. */
    method FinishUpload()
      modifies this
      ensures !uploading
      ensures value == old(value) && text == old(text) && isEditing == old(isEditing) && saving == old(saving) && showSaved == old(showSaved)
    {
      uploading := false;
    }
  }
}
