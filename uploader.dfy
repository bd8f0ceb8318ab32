/** Upload validation and the uploader's `preview` / `error` state. */
module Uploader {
  import opened Wrappers
  import opened Types

  const MaxSizeMb: nat := 10

  /** The byte bound: the size check is `file.size > MAX_SIZE_MB * 1024 * 1024`. */
  const MaxSizeBytes: nat := MaxSizeMb * 1024 * 1024

  const AllowedTypes: seq<string> := ["image/jpeg", "image/png", "image/webp", "image/heic"]

  const UnsupportedTypeMessage: string := "Unsupported file type. Please upload " + "a JPG, PNG, or WebP image."
  const TooLargeMessage: string := "File is too large. Maximum size is 10 MB."

  /** A file the uploader accepts. */
  predicate Accepted(file: ImageFile): (b: bool)
    ensures b ==> |file.mediaType| > 6 && file.mediaType[..6] == "image/"
    ensures b ==> file.size <= 10 * 1024 * 1024
  {
    file.mediaType in AllowedTypes && file.size <= MaxSizeBytes
  }

  /** The message `validate` shows for a file, if it rejects it. The type is checked first. */
  function Rejection(file: ImageFile): (r: Option<string>)
    ensures r.None? <==> Accepted(file)
    ensures file.mediaType !in AllowedTypes ==> r == Some(UnsupportedTypeMessage)
    ensures file.mediaType in AllowedTypes && file.size > MaxSizeBytes ==> r == Some(TooLargeMessage)
  {
    if file.mediaType !in AllowedTypes then Some(UnsupportedTypeMessage)
    else if file.size > MaxSizeBytes then Some(TooLargeMessage)
    else None
  }

  /** The bound is inclusive: exactly 10 MiB passes, one byte more does not. */
  lemma SizeBoundInclusive(mediaType: string)
    requires mediaType in AllowedTypes
    ensures Rejection(ImageFile(mediaType, 10 * 1024 * 1024)) == None
    ensures Rejection(ImageFile(mediaType, 10 * 1024 * 1024 + 1)) == Some(TooLargeMessage)
  {
  }

  /** A file both of the wrong type and too large gets the type message, not the size message. */
  lemma TypeCheckedFirst(file: ImageFile)
    requires file.mediaType !in AllowedTypes && file.size > MaxSizeBytes
    ensures Rejection(file) == Some(UnsupportedTypeMessage)
    ensures Rejection(file) != Some(TooLargeMessage)
  {
  }

  /** The uploader's state. `onImageSelected` is not called here: a handler returns the
      `(file, previewUrl)` it would pass on, or `None` when it passes nothing on. */
  class ImageUploader {
    var preview: Option<string>
    var error: Option<string>
    var dragActive: bool

    constructor ()
      ensures preview == None && error == None && !dragActive
    {
      preview, error, dragActive := None, None, false;
    }

    /** `validate`: clears `error`, then sets the rejection message and answers false, or answers true. */
    method Validate(file: ImageFile) returns (ok: bool)
      modifies this`error
      ensures ok <==> file.mediaType in AllowedTypes && file.size <= MaxSizeBytes
      ensures error == Rejection(file)
      ensures !ok ==> error.Some?
    {
      error := None;
      if file.mediaType !in AllowedTypes {
        error := Some(UnsupportedTypeMessage);
        return false;
      }
      if file.size > MaxSizeBytes {
        error := Some(TooLargeMessage);
        return false;
      }
      return true;
    }

    /** `handleFile`: on a valid file, shows the object URL as the preview and passes both on;
        otherwise the preview stays as it was. */
    method HandleFile(file: ImageFile, objectUrl: string) returns (selected: Option<(ImageFile, string)>)
      modifies this`error, this`preview
      ensures error == Rejection(file)
      ensures Accepted(file) ==> preview == Some(objectUrl) && selected == Some((file, objectUrl))
      ensures !Accepted(file) ==> preview == old(preview) && selected == None
    {
      var ok := Validate(file);
      if !ok {
        return None;
      }
      preview := Some(objectUrl);
      selected := Some((file, objectUrl));
    }

    /** `handleDrop`: ends the drag and handles the first dropped file, if any. */
    method HandleDrop(files: seq<ImageFile>, objectUrl: string) returns (selected: Option<(ImageFile, string)>)
      modifies this
      ensures !dragActive
      ensures files == [] ==> selected == None && preview == old(preview) && error == old(error)
      ensures files != [] ==> error == Rejection(files[0])
      ensures files != [] && Accepted(files[0]) ==> preview == Some(objectUrl) && selected == Some((files[0], objectUrl))
      ensures files != [] && !Accepted(files[0]) ==> preview == old(preview) && selected == None
    {
      dragActive := false;
      selected := None;
      if files != [] {
        selected := HandleFile(files[0], objectUrl);
      }
    }

    /** `handleChange`: handles the first chosen file, if any. */
    method HandleChange(files: seq<ImageFile>, objectUrl: string) returns (selected: Option<(ImageFile, string)>)
      modifies this`error, this`preview
      ensures files == [] ==> selected == None && preview == old(preview) && error == old(error)
      ensures files != [] ==> error == Rejection(files[0])
      ensures files != [] && Accepted(files[0]) ==> preview == Some(objectUrl) && selected == Some((files[0], objectUrl))
      ensures files != [] && !Accepted(files[0]) ==> preview == old(preview) && selected == None
    {
      selected := None;
      if files != [] {
        selected := HandleFile(files[0], objectUrl);
      }
    }

    /** `clear`: drops the preview and the error. */
    method Clear()
      modifies this`error, this`preview
      ensures preview == None && error == None
    {
      preview := None;
      error := None;
    }
  }
}
