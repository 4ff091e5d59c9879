/** The file-submission dialog: a selection among the site's submission
    targets, a size check before anything is sent, and a view that hides the
    cancel control while a post is in flight. */
module SubmitDialog {

  import opened Wrappers

  /** Files of this size or more are refused before the post (in bytes). */
  const MaxFileSize: nat := 1024000

  const SizeErrorText: string := "ERROR: file larger than 1MB"
  const SubmissionErrorText: string := "ERROR: submission exception"

  /** One entry of a site's `submissions`: the value sent and the label shown. */
  datatype Submission = Submission(submission: string, name: string)

  /** A file picked in the file input. */
  datatype File = File(name: string, size: nat, fileType: string)

  /** What the dialog remembers of the file while it is being submitted. */
  datatype FileMeta = FileMeta(name: string, size: nat, fileType: string)

  function Meta(f: File): FileMeta
  {
    FileMeta(f.name, f.size, f.fileType)
  }

  /** What `handleSubmit` decides from the file input before any call. */
  datatype Check = NoFile | TooLarge | Send(file: File)

  function CheckFiles(files: seq<File>): (c: Check)
    ensures c.Send? <==> |files| > 0 && files[0].size < MaxFileSize
    ensures c.Send? ==> c.file == files[0]
    ensures c == NoFile <==> files == []
  {
    if |files| == 0 then NoFile
    else if files[0].size < MaxFileSize then Send(files[0])
    else TooLarge
  }

  /** The two boundary sizes: one byte under the limit is sent, the limit itself is refused. */
  lemma SizeBoundary(name: string, fileType: string)
    ensures CheckFiles([File(name, 1023999, fileType)]) == Send(File(name, 1023999, fileType))
    ensures CheckFiles([File(name, 1024000, fileType)]) == TooLarge
  {
  }

  /** What the dialog renders. */
  datatype View =
    | Hidden
    | EditView(selection: string, options: seq<Submission>, error: Option<string>)
    | SubmittingView(user: string, selection: string, file: FileMeta)

  /** Only the edit view carries a cancel button. */
  predicate HasCancel(v: View)
  {
    v.EditView?
  }

  function ChooseView(show: bool, user: string, selection: string, options: seq<Submission>,
                      error: Option<string>, submitting: Option<FileMeta>): (v: View)
    ensures v.SubmittingView? <==> show && submitting.Some?
    ensures v.EditView? <==> show && submitting.None?
    ensures v.Hidden? <==> !show
    ensures v.SubmittingView? ==> v.user == user && v.selection == selection && v.file == submitting.value
    ensures v.EditView? ==> v.selection == selection && v.options == options && v.error == error
  {
    if show && submitting.Some? then SubmittingView(user, selection, submitting.value)
    else if show then EditView(selection, options, error)
    else Hidden
  }

  /** A submission in flight cannot be cancelled; a shown dialog otherwise can. */
  lemma CancelOnlyWhenIdle(show: bool, user: string, selection: string, options: seq<Submission>,
                           error: Option<string>, submitting: Option<FileMeta>)
    ensures HasCancel(ChooseView(show, user, selection, options, error, submitting))
      <==> show && submitting.None?
  {
  }

  class SubmitFileDialog {
    const user: string
    const submissions: seq<Submission>
    var selection: string
    var error: Option<string>
    var submitting: Option<FileMeta>

    /** The dialog is only mounted for a site with submissions; the first is preselected. */
    constructor (user: string, submissions: seq<Submission>)
      requires |submissions| > 0
      ensures this.user == user && this.submissions == submissions
      ensures selection == submissions[0].submission
      ensures error == None && submitting == None
    {
      this.user := user;
      this.submissions := submissions;
      selection := submissions[0].submission;
      error := None;
      submitting := None;
    }

    function Render(show: bool): (v: View)
      reads this
      ensures v.SubmittingView? <==> show && submitting.Some?
      ensures HasCancel(v) <==> show && submitting.None?
    {
      ChooseView(show, user, selection, submissions, error, submitting)
    }

    method HandleSelectionChange(value: string)
      modifies this`selection
      ensures selection == value
    {
      selection := value;
    }

    /** The part of `handleSubmit` before the post is awaited. Returns the
        file to post, if any. */
    method BeginSubmit(files: seq<File>) returns (toPost: Option<File>)
      modifies this`submitting, this`error
      ensures toPost.Some? <==> CheckFiles(files).Send?
      ensures toPost.Some? ==> toPost.value == files[0]
      ensures CheckFiles(files) == NoFile ==> submitting == old(submitting) && error == old(error)
      ensures CheckFiles(files) == TooLarge ==> submitting == None && error == Some(SizeErrorText)
      ensures CheckFiles(files).Send? ==> submitting == Some(Meta(files[0])) && error == old(error)
    {
      match CheckFiles(files)
      case NoFile =>
        toPost := None;
      case TooLarge =>
        submitting := None;
        error := Some(SizeErrorText);
        toPost := None;
      case Send(f) =>
        submitting := Some(Meta(f));
        toPost := Some(f);
    }

    /** The part of `handleSubmit` after the post resolves. Returns whether
        `done()` is called. */
    method FinishSubmit(result: bool) returns (done: bool)
      modifies this`submitting, this`error
      ensures submitting == None
      ensures done == result
      ensures error == if result then old(error) else Some(SubmissionErrorText)
    {
      submitting := None;
      if result {
        done := true;
      } else {
        error := Some(SubmissionErrorText);
        done := false;
      }
    }

    /** `handleSubmit` with the post given as an oracle. `posted` says whether
        the post was called at all. */
    method HandleSubmit(files: seq<File>, postSubmission: (string, string, File) -> bool)
      returns (posted: bool, done: bool)
      modifies this`submitting, this`error
      ensures posted <==> |files| > 0 && files[0].size < MaxFileSize
      ensures posted ==> done == postSubmission(user, selection, files[0])
      ensures posted ==> submitting == None
      ensures posted ==> error == if done then old(error) else Some(SubmissionErrorText)
      ensures !posted ==> !done
      ensures files == [] ==> submitting == old(submitting) && error == old(error)
      ensures |files| > 0 && files[0].size >= MaxFileSize ==>
        submitting == None && error == Some(SizeErrorText)
    {
      var toPost := BeginSubmit(files);
      if toPost.Some? {
        var result := postSubmission(user, selection, toPost.value);
        posted := true;
        done := FinishSubmit(result);
      } else {
        posted, done := false, false;
      }
    }
  }
}
