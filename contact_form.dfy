/**
 * The state of the contact form component (src/components/contactform.tsx):
 * the modal's visibility, the four form fields, the phone error text and the
 * submit flags, changed by typing, submitting and the reset after a submission.
 */
module ContactForm {
  import opened Wrappers
  import opened Text
  import opened PhoneInput

  const PhoneErrorMessage := "Phone number must be exactly 10 digits"
  const PendingStatus := "pending"

  /** The `name` attribute of the form's four inputs. */
  datatype Field = NameField | EmailField | PhoneField | MessageField

  /** `formData`. */
  datatype FormData = FormData(name: string, email: string, phone: string, message: string)
  {
    function Get(f: Field): string {
      match f
      case NameField => name
      case EmailField => email
      case PhoneField => phone
      case MessageField => message
    }

    /** `{ ...prev, [f]: value }`: one field replaced, the others kept. */
    function With(f: Field, value: string): (d: FormData)
      ensures d.Get(f) == value
      ensures forall g :: g != f ==> d.Get(g) == Get(g)
    {
      match f
      case NameField => this.(name := value)
      case EmailField => this.(email := value)
      case PhoneField => this.(phone := value)
      case MessageField => this.(message := value)
    }
  }

  const EmptyForm := FormData("", "", "", "")

  /** The object handed to the `client_request` insert. */
  datatype NewRequest = NewRequest(
    clientName: string,
    email: string,
    phoneNumber: string,
    requestDate: string,
    status: string,
    description: string,
    reqTime: string)

  /**
   * How the awaited insert ends: it resolves with `{ data, error }` (the error
   * possibly set), or the promise rejects, which is the only path into `catch`.
   */
  datatype InsertOutcome = Resolved(error: Option<string>) | Rejected

  /**
   * `zoned.split('T')[1].split('.')[0]`: the text between the first 'T' and the
   * next '.'. With no 'T' the second piece is `undefined` and the call throws,
   * which is `None` here.
   */
  function ReqTime(zoned: string): (t: Option<string>)
    ensures t.None? <==> 'T' !in zoned
    ensures t.Some? ==> 'T' !in t.value && '.' !in t.value
  {
    var parts := Split(zoned, 'T');
    if |parts| < 2 then None
    else
      FirstPiece(parts[1], '.');
      Some(Split(parts[1], '.')[0])
  }

  /** On an ISO timestamp `date T time . rest` the extracted time is exactly `time`. */
  lemma ReqTimeOfTimestamp(date: string, time: string, rest: string)
    requires 'T' !in date && 'T' !in time && '.' !in time
    ensures ReqTime(date + "T" + time + "." + rest) == Some(time)
  {
    var afterT := time + "." + rest;
    var x := Split(rest, 'T')[0];
    // The second piece on 'T' is the text of `afterT` before its next 'T' ...
    SplitAtFirst(date, afterT, 'T');
    assert date + "T" + time + "." + rest == date + ['T'] + afterT;
    // ... which is `time`, the '.', and whatever precedes the next 'T'.
    SplitAfterPlainPrefix(".", rest, 'T');
    SplitAfterPlainPrefix(time, "." + rest, 'T');
    assert afterT == time + ("." + rest);
    assert Split(afterT, 'T')[0] == time + ['.'] + x;
    // Its text before the first '.' is `time`.
    SplitAtFirst(time, x, '.');
  }

  class ContactFormComponent {
    var isOpen: bool
    var formData: FormData
    var isSubmitting: bool
    var submitSuccess: bool
    var phoneError: string
    /** Every call made to the `client_request` insert, oldest first. */
    var inserts: seq<NewRequest>
    /** The reset timer set by a submission whose insert returned, not yet fired. */
    var resetPending: bool

    /**
     * The phone field is always in shape, and every record ever inserted is
     * pending and carries a ten-digit phone number.
     */
    ghost predicate Valid()
      reads this
    {
      && PhoneShaped(formData.phone)
      && forall r :: r in inserts ==> r.status == PendingStatus && ValidatePhone(r.phoneNumber)
    }

    constructor ()
      ensures Valid()
      ensures !isOpen && formData == EmptyForm && phoneError == ""
      ensures !isSubmitting && !submitSuccess && inserts == [] && !resetPending
    {
      isOpen := false;
      formData := EmptyForm;
      isSubmitting := false;
      submitSuccess := false;
      phoneError := "";
      inserts := [];
      resetPending := false;
    }

    /** The floating "Contact Us" button. */
    method Open()
      requires Valid()
      modifies this`isOpen
      ensures Valid() && isOpen
    {
      isOpen := true;
    }

    /** The close button in the modal's header. */
    method Close()
      requires Valid()
      modifies this`isOpen
      ensures Valid() && !isOpen
    {
      isOpen := false;
    }

    /**
     * `handleChange`: the phone input is shaped and re-validated; any other
     * input is stored as typed and leaves the error text alone.
     */
    method HandleChange(field: Field, value: string)
      requires Valid()
      modifies this`formData, this`phoneError
      ensures Valid()
      ensures forall g :: g != field ==> formData.Get(g) == old(formData.Get(g))
      ensures field == PhoneField ==>
        && formData.phone == Sanitize(value)
        && (phoneError == "" <==> ValidatePhone(formData.phone))
        && (phoneError != "" ==> phoneError == PhoneErrorMessage)
      ensures field != PhoneField ==> formData.Get(field) == value && phoneError == old(phoneError)
    {
      if field == PhoneField {
        var truncatedValue := Sanitize(value);
        formData := formData.With(PhoneField, truncatedValue);
        phoneError := if ValidatePhone(truncatedValue) then "" else PhoneErrorMessage;
      } else {
        formData := formData.With(field, value);
      }
    }

    /**
     * `handleSubmit`, up to the scheduling of the reset. `now` is
     * `new Date().toISOString()` and `zonedNow` the ISO text of the shifted
     * clock; `outcome` is how the insert ends.
     */
    method HandleSubmit(now: string, zonedNow: string, outcome: InsertOutcome)
      requires Valid()
      modifies this`phoneError, this`isSubmitting, this`submitSuccess, this`inserts, this`resetPending
      ensures Valid()
      ensures formData == old(formData)
      // An invalid phone: the message is shown and nothing else happens.
      ensures !ValidatePhone(formData.phone) ==>
        && phoneError == PhoneErrorMessage
        && inserts == old(inserts)
        && isSubmitting == old(isSubmitting)
        && submitSuccess == old(submitSuccess)
      // The reset is scheduled only when the insert returns, whatever it returned.
      ensures resetPending == (old(resetPending) ||
        (ValidatePhone(formData.phone) && ReqTime(zonedNow).Some? && outcome.Resolved?))
      ensures ValidatePhone(formData.phone) ==> phoneError == old(phoneError)
      // No time of day could be cut from the shifted clock: the throw is caught before any insert.
      ensures ValidatePhone(formData.phone) && ReqTime(zonedNow).None? ==>
        && inserts == old(inserts)
        && !isSubmitting
        && submitSuccess == old(submitSuccess)
      // Otherwise exactly one insert of a pending record built from the form.
      ensures ValidatePhone(formData.phone) && ReqTime(zonedNow).Some? ==>
        && inserts == old(inserts) + [NewRequest(
             formData.name, formData.email, formData.phone, now,
             PendingStatus, formData.message, ReqTime(zonedNow).value)]
        && isSubmitting == !outcome.Rejected?
        && submitSuccess == (outcome.Resolved? || old(submitSuccess))
    {
      if !ValidatePhone(formData.phone) {
        phoneError := PhoneErrorMessage;
        return;
      }
      isSubmitting := true;
      var reqTime := ReqTime(zonedNow);
      if reqTime.None? {
        isSubmitting := false;
        return;
      }
      var record := NewRequest(
        formData.name, formData.email, formData.phone, now,
        PendingStatus, formData.message, reqTime.value);
      inserts := inserts + [record];
      if outcome.Rejected? {
        isSubmitting := false;
        return;
      }
      submitSuccess := true;
      resetPending := true;
    }

    /** The callback the successful submission schedules, when its timer fires: the form is emptied and closed. */
    method ResetAfterSubmit()
      requires Valid() && resetPending
      modifies this`formData, this`isSubmitting, this`submitSuccess, this`isOpen, this`resetPending
      ensures Valid()
      ensures formData == EmptyForm && !isSubmitting && !submitSuccess && !isOpen && !resetPending
    {
      formData := EmptyForm;
      isSubmitting := false;
      submitSuccess := false;
      isOpen := false;
      resetPending := false;
    }
  }
}
