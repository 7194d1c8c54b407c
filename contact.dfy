/** The contact form of client/src/components/Contact.tsx: three text
    fields updated one at a time by change events, and a simulated
    submission that shows "Sending..." until a first timer, then a success
    message (with the fields cleared) until a second timer. */
module Contact {

  datatype Field = Name | Email | Message

  /** `formData`. */
  datatype FormData = FormData(name: string, email: string, message: string)

  const EmptyForm := FormData("", "", "")

  function Get(d: FormData, f: Field): string
  {
    match f
    case Name => d.name
    case Email => d.email
    case Message => d.message
  }

  /** The update of `handleInputChange`: `{...prev, [name]: value}`. */
  function WithField(d: FormData, f: Field, v: string): (r: FormData)
    ensures Get(r, f) == v
    ensures forall g :: g != f ==> Get(r, g) == Get(d, g)
  {
    match f
    case Name => d.(name := v)
    case Email => d.(email := v)
    case Message => d.(message := v)
  }

  /** The form's state; the two counters are the timers of each phase
      scheduled and not yet fired. */
  datatype Form = Form(data: FormData, isSubmitting: bool, submitSuccess: bool,
                       pendingSends: nat, pendingResets: nat)

  const Initial := Form(EmptyForm, false, false, 0, 0)

  /** The submit button is disabled exactly while a submission is in
      progress. */
  predicate SubmitDisabled(s: Form)
  {
    s.isSubmitting
  }

  /** A change event on field `f`: that field takes the value, the flags
      and the timers are kept. */
  function Changed(s: Form, f: Field, v: string): (r: Form)
    ensures Get(r.data, f) == v
    ensures r.isSubmitting == s.isSubmitting && r.submitSuccess == s.submitSuccess
    ensures r.pendingSends == s.pendingSends && r.pendingResets == s.pendingResets
  {
    s.(data := WithField(s.data, f, v))
  }

  /** `handleSubmit`: show "Sending..." and schedule the first phase. */
  function Submitted(s: Form): (r: Form)
    ensures SubmitDisabled(r) && r.data == s.data && r.submitSuccess == s.submitSuccess
  {
    s.(isSubmitting := true, pendingSends := s.pendingSends + 1)
  }

  /** The first timer: submission over, success shown, fields emptied, the
      second phase scheduled. */
  function SendFinished(s: Form): (r: Form)
    requires s.pendingSends > 0
    ensures !SubmitDisabled(r) && r.submitSuccess
    ensures forall f :: Get(r.data, f) == ""
  {
    Form(EmptyForm, false, true, s.pendingSends - 1, s.pendingResets + 1)
  }

  /** The second timer: the success message goes away. */
  function SuccessExpired(s: Form): (r: Form)
    requires s.pendingResets > 0
    ensures !r.submitSuccess && r.data == s.data && r.isSubmitting == s.isSubmitting
  {
    s.(submitSuccess := false, pendingResets := s.pendingResets - 1)
  }

  /** The last change to a field wins, and changes to different fields
      commute. */
  lemma FieldUpdatesCompose(d: FormData, f: Field, g: Field, v: string, w: string)
    ensures WithField(WithField(d, f, v), f, w) == WithField(d, f, w)
    ensures f != g ==> WithField(WithField(d, f, v), g, w) == WithField(WithField(d, g, w), f, v)
  {
  }

  /** A full submission cycle with no other timers around: the button is
      disabled while sending; after the first phase it is enabled, success
      is shown and the fields are empty; edits made while the success
      message shows survive the second phase, after which the form is idle
      again. */
  lemma SubmitCycle(s: Form, f: Field, v: string)
    requires s.pendingSends == 0 && s.pendingResets == 0
    ensures SubmitDisabled(Submitted(s))
    ensures var a := SendFinished(Submitted(s));
            !SubmitDisabled(a) && a.submitSuccess && a.data == EmptyForm
    ensures var b := Changed(SendFinished(Submitted(s)), f, v);
            SuccessExpired(b) == Form(WithField(EmptyForm, f, v), false, false, 0, 0)
  {
  }

  class ContactForm {
    var data: FormData
    var isSubmitting: bool
    var submitSuccess: bool
    var pendingSends: nat
    var pendingResets: nat

    function State(): Form
      reads this
    {
      Form(data, isSubmitting, submitSuccess, pendingSends, pendingResets)
    }

    constructor ()
      ensures State() == Initial
    {
      data, isSubmitting, submitSuccess, pendingSends, pendingResets := EmptyForm, false, false, 0, 0;
    }

    /** Whether the submit button is disabled (`disabled={isSubmitting}`). */
    method IsSubmitDisabled() returns (disabled: bool)
      ensures disabled == SubmitDisabled(State())
    {
      disabled := isSubmitting;
    }

    /** `handleInputChange` for the field named `f`. */
    method HandleInputChange(f: Field, v: string)
      modifies this
      ensures State() == Changed(old(State()), f, v)
    {
      data := WithField(data, f, v);
    }

    /** `handleSubmit`. */
    method HandleSubmit()
      modifies this
      ensures State() == Submitted(old(State()))
    {
      isSubmitting := true;
      pendingSends := pendingSends + 1;
    }

    /** The first phase's timer fires. */
    method SendTimerFires()
      requires pendingSends > 0
      modifies this
      ensures State() == SendFinished(old(State()))
    {
      isSubmitting := false;
      submitSuccess := true;
      data := EmptyForm;
      pendingSends := pendingSends - 1;
      pendingResets := pendingResets + 1;
    }

    /** The second phase's timer fires. */
    method ResetTimerFires()
      requires pendingResets > 0
      modifies this
      ensures State() == SuccessExpired(old(State()))
    {
      submitSuccess := false;
      pendingResets := pendingResets - 1;
    }
  }
}
