/** The add-comment dialog: a comment text and a comment type, submitted or cancelled. */
module AddComment {
  import opened Optional
  import opened Strings

  /** One call of `onCommentAdd(submissionId, comment, commentType)`. */
  datatype CommentAdd = CommentAdd(submissionId: string, comment: string, commentType: string)

  /** `commentTypes`: each selectable type with its label. */
  const CommentTypes: seq<(string, string)> := [
    ("general", "General Comment"), ("feedback", "Feedback"), ("correction", "Correction Required"),
    ("approval", "Approval Note"), ("follow-up", "Follow-up Required")]

  /** The type a fresh or reset dialog starts with. */
  const DefaultCommentType: string := "general"

  /** The default type is the first option. */
  lemma DefaultIsOffered()
    ensures |CommentTypes| == 5 && CommentTypes[0].0 == DefaultCommentType
  {
  }

  /** `handleSubmit`'s guard, negated: `!submissionId || !comment.trim()`. */
  function CanSubmit(submissionId: Option<string>, comment: string): (ok: bool)
    ensures ok <==> Truthy(submissionId) && !IsBlank(comment)
  {
    TrimEmptyIffBlank(comment);
    Truthy(submissionId) && Trim(comment) != ""
  }

  /** `AddCommentDialog`'s state. */
  class AddCommentDialog {
    var submissionId: Option<string>
    var comment: string
    var commentType: string

    constructor(submissionId: Option<string>)
      ensures this.submissionId == submissionId
      ensures comment == "" && commentType == DefaultCommentType
    {
      this.submissionId := submissionId;
      comment := "";
      commentType := DefaultCommentType;
    }

    /** A new `submissionId` prop: the comment and type state persists across it. */
    method PropsChanged(submissionId: Option<string>)
      modifies this
      ensures this.submissionId == submissionId
      ensures comment == old(comment) && commentType == old(commentType)
    {
      this.submissionId := submissionId;
    }

    /** The comment text area. */
    method SetComment(c: string)
      modifies this
      ensures comment == c
      ensures submissionId == old(submissionId) && commentType == old(commentType)
    {
      comment := c;
    }

    /** The comment type select. */
    method SelectCommentType(t: string)
      modifies this
      ensures commentType == t
      ensures submissionId == old(submissionId) && comment == old(comment)
    {
      commentType := t;
    }

    /** `handleSubmit`: returns the `onCommentAdd` call it makes, if any; the comment is
        passed untrimmed with the current type. */
    method HandleSubmit() returns (call: Option<CommentAdd>)
      modifies this
      ensures call.Some? <==> CanSubmit(old(submissionId), old(comment))
      ensures call.Some? ==> call.value == CommentAdd(old(submissionId).value, old(comment), old(commentType))
      ensures call.Some? ==> comment == "" && commentType == DefaultCommentType
      ensures call.None? ==> comment == old(comment) && commentType == old(commentType)
      ensures submissionId == old(submissionId)
    {
      if !CanSubmit(submissionId, comment) {
        return None;
      }
      call := Some(CommentAdd(submissionId.value, comment, commentType));
      comment := "";
      commentType := DefaultCommentType;
    }

    /** `handleCancel`. */
    method HandleCancel()
      modifies this
      ensures comment == "" && commentType == DefaultCommentType
      ensures submissionId == old(submissionId)
    {
      comment := "";
      commentType := DefaultCommentType;
    }
  }
}
