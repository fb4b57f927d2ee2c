/**
 * The drop zone of the upload screen: the decision taken on the list of
 * files a drop delivers, and the `isDragging` flag that highlights the zone.
 *
 * Reading an accepted file (`FileReader.readAsDataURL`) and the toast
 * notifications are effects outside this model; the drop zone records the
 * file handed to the reader and the error message shown, in order.
 */
module Uploader {

  /** A dropped file: its name and its MIME type as the browser reports it. */
  datatype File = File(name: string, mimeType: string)

  /** What a drop leads to: an error message, or the file that is read. */
  datatype DropOutcome = Rejected(message: string) | Accepted(file: File)

  const EmptyDropMessage: string := "Please upload an image file (JPEG, PNG, WebP)"
  const NotImageMessage: string := "Only image files are allowed"

  /** `type.startsWith("image/")`. */
  predicate IsImageType(t: string)
  {
    |t| >= 6 && t[..6] == "image/"
  }

  /**
   * The decision `onDrop` takes: an empty drop and a first file that is not
   * an image are rejected with their own messages; otherwise the first file
   * is accepted and every other file is ignored.
   */
  function OnDropDecision(files: seq<File>): (r: DropOutcome)
    ensures r.Accepted? <==> |files| > 0 && IsImageType(files[0].mimeType)
    ensures r.Accepted? ==> r.file == files[0]
    ensures files == [] <==> r == Rejected(EmptyDropMessage)
    ensures r.Rejected? && files != [] ==> r.message == NotImageMessage
  {
    if |files| == 0 then Rejected(EmptyDropMessage)
    else
      var file := files[0];
      if !IsImageType(file.mimeType) then Rejected(NotImageMessage)
      else Accepted(file)
  }

  /** Only the first file of a drop is examined: the rest never changes the outcome. */
  lemma OnlyFirstFileMatters(first: File, rest: seq<File>, other: seq<File>)
    ensures OnDropDecision([first] + rest) == OnDropDecision([first] + other)
    ensures OnDropDecision([first] + rest) == OnDropDecision([first])
  {
  }

  /** The two error messages differ, so a rejection tells which check failed. */
  lemma RejectionsAreDistinguishable(files: seq<File>)
    ensures OnDropDecision(files) == Rejected(NotImageMessage) <==>
      files != [] && !IsImageType(files[0].mimeType)
  {
    assert |EmptyDropMessage| == 45 && |NotImageMessage| == 28;
  }

  /** Examples: a PNG is accepted; a PDF and a type that only contains "image/" later on are not. */
  lemma DropExamples()
    ensures OnDropDecision([File("a.png", "image/png")]).Accepted?
    ensures OnDropDecision([File("a.pdf", "application/pdf"), File("b.png", "image/png")])
      == Rejected(NotImageMessage)
    ensures !IsImageType("x-image/png")
  {
    assert "image/png"[..6] == "image/";
    assert "application/pdf"[..6] != "image/" by {
      assert "application/pdf"[0] == 'a';
    }
    assert "x-image/png"[..6] != "image/" by {
      assert "x-image/png"[0] == 'x';
    }
  }

  /** The upload drop zone and the effects of its handlers. */
  class DropZone {
    /** Whether a drag is over the zone; it drives the highlight. */
    var isDragging: bool
    /** The files handed to the file reader, oldest first. */
    var reading: seq<File>
    /** The error messages shown, oldest first. */
    var errors: seq<string>

    constructor ()
      ensures !isDragging && reading == [] && errors == []
    {
      isDragging := false;
      reading := [];
      errors := [];
    }

    /** `onDragEnter`: turns the highlight on. */
    method DragEnter()
      modifies this
      ensures isDragging
      ensures reading == old(reading) && errors == old(errors)
    {
      isDragging := true;
    }

    /** `onDragLeave`: turns the highlight off. */
    method DragLeave()
      modifies this
      ensures !isDragging
      ensures reading == old(reading) && errors == old(errors)
    {
      isDragging := false;
    }

    /**
     * `onDrop`: clears the highlight whatever the outcome, then either shows
     * the error message or hands the first file to the reader.
     */
    method Drop(files: seq<File>) returns (outcome: DropOutcome)
      modifies this
      ensures outcome == OnDropDecision(files)
      ensures !isDragging
      ensures outcome.Accepted? ==> reading == old(reading) + [outcome.file] && errors == old(errors)
      ensures outcome.Rejected? ==> reading == old(reading) && errors == old(errors) + [outcome.message]
    {
      isDragging := false;
      if |files| == 0 {
        errors := errors + [EmptyDropMessage];
        return Rejected(EmptyDropMessage);
      }
      var file := files[0];
      if !IsImageType(file.mimeType) {
        errors := errors + [NotImageMessage];
        return Rejected(NotImageMessage);
      }
      reading := reading + [file];
      outcome := Accepted(file);
    }
  }
}
