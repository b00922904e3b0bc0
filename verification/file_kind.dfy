/**
 * How the uploads page presents a file's MIME type: the placeholder icon chosen by
 * `getFileIcon` and the short type label shown under each card.
 */
module FileKind {
  import opened Text

  /** The four placeholder icons. */
  datatype Icon = ImageIcon | MusicIcon | VideoIcon | FileIcon

  /** `getFileIcon(type)`: the first of the prefixes `image/`, `audio/`, `video/` that the
      MIME string starts with decides the icon; anything else gets the generic file icon.
      The test is case-sensitive. */
  function IconFor(mime: string): (r: Icon)
    ensures r == ImageIcon <==> StartsWith(mime, "image/")
    ensures r == MusicIcon <==> StartsWith(mime, "audio/")
    ensures r == VideoIcon <==> StartsWith(mime, "video/")
    ensures r == FileIcon <==>
      !StartsWith(mime, "image/") && !StartsWith(mime, "audio/") && !StartsWith(mime, "video/")
  {
    if StartsWith(mime, "image/") then ImageIcon
    else if StartsWith(mime, "audio/") then MusicIcon
    else if StartsWith(mime, "video/") then VideoIcon
    else FileIcon
  }

  /** The three prefixes exclude each other, so the order of the tests never decides. */
  lemma PrefixesExclusive(mime: string)
    ensures !(StartsWith(mime, "image/") && StartsWith(mime, "audio/"))
    ensures !(StartsWith(mime, "image/") && StartsWith(mime, "video/"))
    ensures !(StartsWith(mime, "audio/") && StartsWith(mime, "video/"))
  {
  }

  /** `file_type.split("/")[0]`: the type before the first slash, or the whole string. */
  function TypeLabel(mime: string): (r: string)
    ensures |r| <= |mime| && r == mime[..|r|] && '/' !in r
    ensures |r| < |mime| ==> mime[|r|] == '/'
  {
    BeforeFirst(mime, '/')
  }

  /** The icon and the label agree: a MIME string gets the image (music, video) icon exactly
      when its label is "image" ("audio", "video") and a slash follows the label. */
  lemma {:induction false} IconAgreesWithLabel(mime: string)
    ensures IconFor(mime) == ImageIcon <==> TypeLabel(mime) == "image" && |mime| > 5
    ensures IconFor(mime) == MusicIcon <==> TypeLabel(mime) == "audio" && |mime| > 5
    ensures IconFor(mime) == VideoIcon <==> TypeLabel(mime) == "video" && |mime| > 5
  {
    LabelIsMajorType(mime, "image");
    LabelIsMajorType(mime, "audio");
    LabelIsMajorType(mime, "video");
  }

  /** For a slash-free `major`, the MIME string starts with `major + "/"` exactly when its
      label is `major` and is followed by something. */
  lemma {:induction false} LabelIsMajorType(mime: string, major: string)
    requires '/' !in major
    ensures StartsWith(mime, major + "/") <==> TypeLabel(mime) == major && |mime| > |major|
  {
    if StartsWith(mime, major + "/") {
      assert mime[..|major|] == (major + "/")[..|major|] == major;
      assert mime[|major|] == (major + "/")[|major|];
      BeforeFirstUnique(mime, '/', major);
    }
    if TypeLabel(mime) == major && |mime| > |major| {
      assert mime[..|major| + 1] == major + "/";
    }
  }
}
