/** The image picker: the checks a chosen file must pass before it is
    uploaded, the state the upload leaves, removal, and the input's id. */
module ImageUpload {
  import opened JsValue
  import opened JsText

  /** The part of a chosen `File` the checks read. */
  datatype FileInfo = FileInfo(mimeType: string, size: nat)

  /** The size limit, 10 MiB. */
  const MaxImageBytes: nat := 10 * 1024 * 1024

  const NotAnImage := "Please select an image file"
  const TooLarge := "Image size should be less than 10MB"

  predicate IsImageType(mimeType: string) {
    |mimeType| >= 6 && mimeType[..6] == "image/"
  }

  /** What the checks decide about the chosen file (`None` when the
      selection is empty). */
  datatype FileCheck = Ignored | Refused(message: string) | Accepted

  function CheckFile(file: Option<FileInfo>): (c: FileCheck)
    ensures c.Ignored? <==> file.None?
    ensures file.Some? && !IsImageType(file.value.mimeType) ==> c == Refused(NotAnImage)
    ensures file.Some? && IsImageType(file.value.mimeType) && file.value.size > MaxImageBytes ==> c == Refused(TooLarge)
    ensures c.Accepted? <==> file.Some? && IsImageType(file.value.mimeType) && file.value.size <= MaxImageBytes
  {
    match file
    case None => Ignored
    case Some(f) =>
      if !IsImageType(f.mimeType) then Refused(NotAnImage)
      else if f.size > MaxImageBytes then Refused(TooLarge)
      else Accepted
  }

  /** The type is checked before the size: a file that is not an image is
      refused for its type however large it is, and a file of exactly the
      limit is accepted. */
  lemma TypeCheckedFirst(mimeType: string, size: nat)
    ensures !IsImageType(mimeType) ==> CheckFile(Some(FileInfo(mimeType, size))) == Refused(NotAnImage)
    ensures IsImageType(mimeType) ==>
      (CheckFile(Some(FileInfo(mimeType, size))).Accepted? <==> size <= 10485760)
    ensures CheckFile(Some(FileInfo("image/png", MaxImageBytes))).Accepted?
  {
    assert "image/png"[..6] == "image/";
  }

  /** How the read and the upload of an accepted file end. */
  datatype ReadOutcome =
    | Uploaded(upload: Outcome<string>)  // the file was read; the upload settled
    | ReadFailed                         // the reader reported an error
    | ProcessingFailed                   // the reader could not be started

  /** The id of the hidden file input: the label with every run of white
      space replaced by one '-', after the prefix "image-upload-". */
  function InputId(labelText: string): (id: string)
    ensures |id| >= 13 && id[..13] == "image-upload-"
    ensures NoWhitespace(id)
    ensures NoWhitespace(labelText) ==> id == "image-upload-" + labelText
  {
    var id := "image-upload-" + CollapseWhitespace(labelText, '-');
    CollapseLeavesNoWhitespace(labelText, '-');
    LabelWithoutSpaces(labelText);
    assert id[13..] == CollapseWhitespace(labelText, '-');
    id
  }

  lemma LabelWithoutSpaces(labelText: string)
    ensures NoWhitespace(labelText) ==> CollapseWhitespace(labelText, '-') == labelText
  {
    if NoWhitespace(labelText) {
      CollapseKeepsWord(labelText, '-');
    }
  }

  /** trimStart drops exactly a blank run in front of text that does not
      start with white space. */
  lemma TrimStartDropsRun(w: string, x: string)
    requires IsBlank(w) && (x == [] || !IsWhitespace(x[0]))
    ensures TrimStart(w + x) == x
  {
    var s := w + x;
    assert forall i :: 0 <= i < |w| ==> s[i] == w[i];
    assert |w| < |s| ==> s[|w|] == x[0];
    TrimStartAt(s, |w|);
    assert s[|w|..] == x;
  }

  /** A maximal blank run at the front becomes one '-', and the rest is
      collapsed on its own. */
  lemma CollapseLeadingRun(w: string, x: string)
    requires IsBlank(w) && w != "" && (x == [] || !IsWhitespace(x[0]))
    ensures CollapseWhitespace(w + x, '-') == "-" + CollapseWhitespace(x, '-')
  {
    TrimStartDropsRun(w, x);
    assert IsWhitespace((w + x)[0]);
  }

  /** Word characters in front are kept in front. */
  lemma {:induction false} CollapseAfterWord(a: string, x: string)
    requires NoWhitespace(a)
    ensures CollapseWhitespace(a + x, '-') == a + CollapseWhitespace(x, '-')
    decreases |a|
  {
    if a == [] {
      assert a + x == x;
    } else {
      var t := a[1..] + x;
      assert a + x == [a[0]] + t;
      CollapseCons(a[0], t);
      CollapseAfterWord(a[1..], x);
      assert a == [a[0]] + a[1..];
    }
  }

  /** One run of white space between two words becomes one '-'. */
  lemma CollapseOneRun(a: string, w: string, b: string)
    requires NoWhitespace(a) && NoWhitespace(b) && IsBlank(w) && w != ""
    ensures CollapseWhitespace(a + w + b, '-') == a + "-" + b
  {
    CollapseAfterWord(a, w + b);
    CollapseLeadingRun(w, b);
    CollapseKeepsWord(b, '-');
    Regroup(a, w, b);
  }

  lemma Regroup(a: string, w: string, b: string)
    ensures a + w + b == a + (w + b) && a + ("-" + b) == a + "-" + b
  {
  }

  /** A word character in front is kept in front. */
  lemma CollapseCons(c: char, t: string)
    requires !IsWhitespace(c)
    ensures CollapseWhitespace([c] + t, '-') == [c] + CollapseWhitespace(t, '-')
  {
    assert ([c] + t)[1..] == t;
  }

  /** "Hotel  Image" and "Hotel\tImage" share the id "image-upload-Hotel-Image". */
  lemma InputIdOfTwoWords(first: string, gap: string, second: string)
    requires NoWhitespace(first) && NoWhitespace(second) && IsBlank(gap) && gap != ""
    ensures InputId(first + gap + second) == "image-upload-" + first + "-" + second
  {
    CollapseOneRun(first, gap, second);
    assert "image-upload-" + (first + "-" + second) == "image-upload-" + first + "-" + second;
  }

  /** A label cut into its maximal runs: words without white space and
      gaps of white space, never empty, word and gap taking turns. */
  datatype Run = Word(w: string) | Gap(g: string)

  predicate RunOk(r: Run) {
    match r
    case Word(w) => w != "" && NoWhitespace(w)
    case Gap(g) => g != "" && IsBlank(g)
  }

  predicate Alternating(runs: seq<Run>)
    decreases |runs|
  {
    runs == [] || (RunOk(runs[0]) && (|runs| > 1 ==> runs[0].Word? != runs[1].Word?) && Alternating(runs[1..]))
  }

  function RunText(r: Run): string {
    match r
    case Word(w) => w
    case Gap(g) => g
  }

  /** The text the runs spell. */
  function Flatten(runs: seq<Run>): string
    decreases |runs|
  {
    if runs == [] then [] else RunText(runs[0]) + Flatten(runs[1..])
  }

  /** The runs with every word kept and every gap written as one '-'. */
  function Dashed(runs: seq<Run>): string
    decreases |runs|
  {
    if runs == [] then [] else (if runs[0].Word? then runs[0].w else "-") + Dashed(runs[1..])
  }

  /** The text up to its first white space. */
  function LeadingWord(s: string): (w: string)
    ensures |w| <= |s| && w == s[..|w|] && NoWhitespace(w)
    ensures |w| == |s| || IsWhitespace(s[|w|])
    ensures s != [] && !IsWhitespace(s[0]) ==> w != []
    decreases |s|
  {
    if s == [] || IsWhitespace(s[0]) then [] else [s[0]] + LeadingWord(s[1..])
  }

  /** Every label is spelt by one alternating list of runs. */
  function RunsOf(s: string): (runs: seq<Run>)
    ensures Alternating(runs) && Flatten(runs) == s
    ensures runs != [] <==> s != []
    ensures runs != [] ==> (runs[0].Word? <==> !IsWhitespace(s[0]))
    decreases |s|
  {
    if s == [] then []
    else
      var r := FirstRun(s);
      var t := s[|RunText(r)|..];
      ConsRun(r, RunsOf(t));
      [r] + RunsOf(t)
  }

  /** The run a non-empty text starts with, and what follows it. */
  function FirstRun(s: string): (r: Run)
    requires s != []
    ensures RunOk(r) && (r.Word? <==> !IsWhitespace(s[0]))
    ensures |RunText(r)| <= |s| && s == RunText(r) + s[|RunText(r)|..]
    ensures |RunText(r)| < |s| ==> (r.Word? <==> IsWhitespace(s[|RunText(r)|]))
  {
    if IsWhitespace(s[0]) then
      var t := TrimStart(s);
      var g := s[..|s| - |t|];
      assert forall i :: 0 <= i < |g| ==> g[i] == s[i];
      Gap(g)
    else
      Word(LeadingWord(s))
  }

  lemma ConsRun(r: Run, runs: seq<Run>)
    requires RunOk(r) && Alternating(runs) && (runs != [] ==> runs[0].Word? != r.Word?)
    ensures Alternating([r] + runs) && Flatten([r] + runs) == RunText(r) + Flatten(runs)
  {
    assert ([r] + runs)[1..] == runs;
  }

  /** Collapsing works run by run: each word is kept and each maximal
      run of white space becomes one '-'. */
  lemma {:induction false} CollapseByRuns(runs: seq<Run>)
    requires Alternating(runs)
    ensures CollapseWhitespace(Flatten(runs), '-') == Dashed(runs)
    decreases |runs|
  {
    if runs != [] {
      var rest := runs[1..];
      CollapseByRuns(rest);
      match runs[0]
      case Word(w) =>
        CollapseAfterWord(w, Flatten(rest));
      case Gap(g) =>
        if rest != [] {
          assert Flatten(rest) == rest[0].w + Flatten(rest[1..]);
        }
        CollapseLeadingRun(g, Flatten(rest));
    }
  }

  /** The id of any label: "image-upload-" and then the label's words in
      order, one '-' wherever the label has a run of white space. */
  lemma InputIdByRuns(labelText: string)
    ensures InputId(labelText) == "image-upload-" + Dashed(RunsOf(labelText))
  {
    CollapseByRuns(RunsOf(labelText));
  }

  class ImageUploadState {
    var uploading: bool
    var error: string
    var preview: string

    /** The preview starts at the current value, or empty. */
    constructor (value: Option<string>)
      ensures !uploading && error == ""
      ensures preview == if value.Some? then value.value else ""
    {
      uploading := false;
      error := "";
      preview := if value.Some? then value.value else "";
    }

    /** The picker shows while there is no preview; the file input (and the
        reference to it) exists only then. */
    function PickerShown(): bool
      reads this
    {
      preview == ""
    }

    /** `handleFileSelect` up to the start of the read: an empty selection
        changes nothing, a refused file sets the error and starts nothing,
        an accepted one clears the error and starts the upload. */
    method HandleFileSelect(file: Option<FileInfo>) returns (started: bool)
      modifies this`error, this`uploading
      ensures started <==> CheckFile(file).Accepted?
      ensures CheckFile(file).Ignored? ==> error == old(error) && uploading == old(uploading)
      ensures CheckFile(file).Refused? ==> error == CheckFile(file).message && uploading == old(uploading)
      ensures CheckFile(file).Accepted? ==> error == "" && uploading
    {
      if file.None? {
        return false;
      }
      var f := file.value;
      if !(|f.mimeType| >= 6 && f.mimeType[..6] == "image/") {
        error := NotAnImage;
        return false;
      }
      if f.size > 10 * 1024 * 1024 {
        error := TooLarge;
        return false;
      }
      error := "";
      uploading := true;
      started := true;
    }

    /** The read or the upload ended. A successful upload shows the
        returned address and hands it to the parent (`emitted`); every
        failure sets its message; in every case the upload is over. */
    method UploadSettled(outcome: ReadOutcome) returns (emitted: Option<string>)
      modifies this`error, this`uploading, this`preview
      ensures !uploading
      ensures outcome.Uploaded? && outcome.upload.Succeeded? ==>
        (preview == outcome.upload.value && emitted == Some(preview) && error == old(error))
      ensures outcome.Uploaded? && outcome.upload.Failed? ==>
        (error == ErrorText(outcome.upload.serverError, "Failed to upload image") && emitted.None? && preview == old(preview))
      ensures outcome.ReadFailed? ==> error == "Failed to read file" && emitted.None? && preview == old(preview)
      ensures outcome.ProcessingFailed? ==> error == "Failed to process image" && emitted.None? && preview == old(preview)
    {
      emitted := None;
      match outcome {
        case Uploaded(upload) =>
          match upload {
            case Succeeded(url) =>
              preview := url;
              emitted := Some(url);
            case Failed(serverError) =>
              error := ErrorText(serverError, "Failed to upload image");
          }
        case ReadFailed =>
          error := "Failed to read file";
        case ProcessingFailed =>
          error := "Failed to process image";
      }
      uploading := false;
    }

    /** `handleRemove`: the preview is cleared and the parent receives ""; the
        picker shows again. */
    method HandleRemove() returns (emitted: string)
      modifies this`preview
      ensures preview == "" && emitted == ""
      ensures PickerShown()
    {
      preview := "";
      emitted := "";
    }
  }
}
