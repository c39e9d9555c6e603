/** `CreatePostDialog`: the post form and its `handleSubmit` pipeline of required-field
    check, cooldown check, then record, submit, reset and close. */
module CreatePostDialog {
  import opened Optional
  import opened SpamProtection

  /** The form's fields (`formData`). */
  datatype FormData = FormData(category: string, title: string, content: string, showName: bool, authorName: string)

  /** The state the form starts in and is reset to. */
  const EmptyForm := FormData("", "", "", false, "")

  /** `formData.category && formData.title && formData.content`: each required field is only
      tested for being the empty string, so a title of spaces passes. */
  predicate Complete(f: FormData)
    ensures Complete(f) ==> f != EmptyForm
    ensures Complete(f) <==> |f.category| > 0 && |f.title| > 0 && |f.content| > 0
  {
    f.category != "" && f.title != "" && f.content != ""
  }

  /** A title of white space only passes the required-field check. */
  lemma BlankTitlePasses(category: string, content: string)
    requires category != "" && content != ""
    ensures Complete(FormData(category, " ", content, false, ""))
  {
  }

  /** Which notice `handleSubmit` ends with; `Published` carries what `onSubmit` received. */
  datatype Outcome =
    | MissingFields
    | CoolingDown(seconds: int)
    | Published(data: FormData)

  class Dialog {
    /** The shared `lastPostTime` entry. */
    const guard: SpamGuard
    var formData: FormData
    var open: bool

    constructor (guard: SpamGuard, open: bool)
      ensures this.guard == guard && formData == EmptyForm && this.open == open
    {
      this.guard := guard;
      formData := EmptyForm;
      this.open := open;
    }

    /** The field `onChange` handlers: `setFormData({...formData, field: value})`. */
    method Edit(data: FormData)
      modifies this
      ensures formData == data && open == old(open)
    {
      formData := data;
    }

    /** `handleSubmit` at time `now`. An incomplete form is rejected before the cooldown is
        consulted, so nothing changes; a complete form inside the cooldown is rejected with the
        wait rounded up to whole seconds, and nothing changes; otherwise the post time is
        recorded, the form as it was is submitted, the form is reset and the dialog closed. */
    method HandleSubmit(now: nat) returns (outcome: Outcome)
      modifies this, guard
      ensures !Complete(old(formData)) ==>
        && outcome == MissingFields
        && formData == old(formData) && open == old(open)
        && guard.lastPostTime == old(guard.lastPostTime)
      ensures Complete(old(formData)) && !CanPostAt(old(guard.lastPostTime), now) ==>
        && outcome == CoolingDown(WaitSeconds(CooldownRemaining(old(guard.lastPostTime), now)))
        && formData == old(formData) && open == old(open)
        && guard.lastPostTime == old(guard.lastPostTime)
      ensures Complete(old(formData)) && CanPostAt(old(guard.lastPostTime), now) ==>
        && outcome == Published(old(formData))
        && guard.lastPostTime == Some(now)
        && formData == EmptyForm && !open
    {
      if !Complete(formData) {
        return MissingFields;
      }
      if !CanPostAt(guard.lastPostTime, now) {
        var remaining := WaitSeconds(CooldownRemaining(guard.lastPostTime, now));
        return CoolingDown(remaining);
      }
      guard.RecordPost(now);
      outcome := Published(formData);
      formData := EmptyForm;
      open := false;
    }
  }
}
