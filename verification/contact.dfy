/**
 * The contact form (src/components/Contact.tsx).
 *
 * The form data is an object keyed by input name, so it is a map from names
 * to strings; a change event overwrites the entry of the input's name.  A
 * submission sets the in-flight flag, clears the status and hands the
 * template parameters to the e-mail service; its outcome is passed in as a
 * boolean.  Success clears the form and reports "success"; failure keeps the
 * form and reports "error"; either way the in-flight flag is cleared, and a
 * later timer event clears the status.
 */
module Contact {
  import opened Optional

  /** The outcome shown to the user. */
  datatype Status = Success | Error

  type Form = map<string, string>

  /** The four inputs of the form, by name. */
  const FieldNames: set<string> := {"name", "email", "subject", "message"}

  /** The keys of the template parameters sent to the e-mail service. */
  const ParamNames: set<string> := {"name", "email", "title", "message"}

  /** The form as it is initially and after a successful send. */
  const EmptyForm: Form := map["name" := "", "email" := "", "subject" := "", "message" := ""]

  predicate HasFields(f: Form) {
    FieldNames <= f.Keys
  }

  /** The template parameters: three fields as they are, the subject as `title`. */
  function TemplateParams(f: Form): (p: map<string, string>)
    requires HasFields(f)
    ensures p.Keys == ParamNames
    ensures p["name"] == f["name"] && p["email"] == f["email"] && p["message"] == f["message"]
    ensures p["title"] == f["subject"]
  {
    map["name" := f["name"], "email" := f["email"], "title" := f["subject"], "message" := f["message"]]
  }

  /** The form fields a set of template parameters was made from. */
  function FieldsOf(p: map<string, string>): (f: Form)
    requires ParamNames <= p.Keys
    ensures f.Keys == FieldNames
  {
    map["name" := p["name"], "email" := p["email"], "subject" := p["title"], "message" := p["message"]]
  }

  /** The four fields of a form, without any other key. */
  function Fields(f: Form): (r: Form)
    requires HasFields(f)
    ensures r.Keys == FieldNames && forall k :: k in FieldNames ==> r[k] == f[k]
  {
    map k | k in FieldNames :: f[k]
  }

  /** Nothing the user typed is lost or mixed up in the parameters sent. */
  lemma TemplateParamsRoundTrip(f: Form)
    requires HasFields(f)
    ensures FieldsOf(TemplateParams(f)) == Fields(f)
  {
  }

  /** Two forms send the same parameters exactly when their four fields agree. */
  lemma TemplateParamsInjective(f: Form, g: Form)
    requires HasFields(f) && HasFields(g)
    ensures TemplateParams(f) == TemplateParams(g) <==> Fields(f) == Fields(g)
  {
  }

  /** The example of a successful and a failed send. */
  const ExampleForm: Form := map["name" := "A", "email" := "a@b.com", "subject" := "S", "message" := "M"]

  /** The contact section's state. */
  class ContactForm {
    var formData: Form
    var isSubmitting: bool
    var submitStatus: Option<Status>

    /** Every input has an entry in the form data. */
    predicate Valid()
      reads this
    {
      HasFields(formData)
    }

    constructor ()
      ensures formData == EmptyForm && !isSubmitting && submitStatus == None && Valid()
    {
      formData, isSubmitting, submitStatus := EmptyForm, false, None;
    }

    /** A change event on the input called `name`. */
    method HandleChange(name: string, value: string)
      requires Valid()
      modifies this
      ensures Valid()
      ensures formData == old(formData)[name := value]
      ensures isSubmitting == old(isSubmitting) && submitStatus == old(submitStatus)
    {
      formData := formData[name := value];
    }

    /**
     * A submit event.  While a send is in flight the submit button is
     * disabled, so the event does nothing and nothing is sent; otherwise the
     * send starts with the parameters returned in `sent`.
     */
    method HandleSubmit() returns (sent: Option<map<string, string>>)
      requires Valid()
      modifies this
      ensures Valid() && formData == old(formData)
      ensures old(isSubmitting) ==> sent == None && isSubmitting && submitStatus == old(submitStatus)
      ensures !old(isSubmitting) ==>
        sent == Some(TemplateParams(formData)) && isSubmitting && submitStatus == None
    {
      if isSubmitting {
        return None;
      }
      isSubmitting := true;
      submitStatus := None;
      var templateParams := TemplateParams(formData);
      sent := Some(templateParams);
    }

    /** The send in flight has ended, successfully or not. */
    method CompleteSubmit(ok: bool)
      requires Valid() && isSubmitting
      modifies this
      ensures Valid() && !isSubmitting
      ensures ok ==> submitStatus == Some(Success) && formData == EmptyForm
      ensures !ok ==> submitStatus == Some(Error) && formData == old(formData)
    {
      if ok {
        submitStatus := Some(Success);
        formData := EmptyForm;
      } else {
        submitStatus := Some(Error);
      }
      isSubmitting := false;
    }

    /** The timer armed at the end of every send fires. */
    method ResetStatus()
      requires Valid()
      modifies this
      ensures Valid() && submitStatus == None
      ensures formData == old(formData) && isSubmitting == old(isSubmitting)
    {
      submitStatus := None;
    }
  }

  /**
   * The example form, from a fresh form: filled in and submitted, submitted
   * again while in flight, failed, resubmitted, succeeded, and the status reset.
   */
  method ExampleSubmissions()
    returns (sent: Option<map<string, string>>, blocked: Option<map<string, string>>,
             afterFailure: Form, failureStatus: Option<Status>,
             afterSuccess: Form, successStatus: Option<Status>, afterReset: Option<Status>)
    ensures sent == Some(map["name" := "A", "email" := "a@b.com", "title" := "S", "message" := "M"])
    ensures blocked == None
    ensures afterFailure == ExampleForm && failureStatus == Some(Error)
    ensures afterSuccess == EmptyForm && successStatus == Some(Success)
    ensures afterReset == None
  {
    var c := new ContactForm();
    c.HandleChange("name", "A");
    c.HandleChange("email", "a@b.com");
    c.HandleChange("subject", "S");
    c.HandleChange("message", "M");
    assert c.formData == ExampleForm;
    sent := c.HandleSubmit();
    blocked := c.HandleSubmit();
    c.CompleteSubmit(false);
    afterFailure, failureStatus := c.formData, c.submitStatus;
    var resent := c.HandleSubmit();
    c.CompleteSubmit(true);
    afterSuccess, successStatus := c.formData, c.submitStatus;
    c.ResetStatus();
    afterReset := c.submitStatus;
  }
}
