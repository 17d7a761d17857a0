/** The contact form's data and its per-step validation rules
    (`validateForm` in src/components/MainFeature.jsx). Each regular
    expression of the form is an explicit predicate here, stated once as an
    executable check and once as the pattern it reads as, and the two are
    proved to agree. */
module FormRules {
  import opened Text

  /** The keys of the form's error map, which are the names of its inputs. */
  datatype Field = Name | Email | Company | Phone | ProductInterest | Message | Deadline

  /** The form record; `productInterest` holds catalog ids in selection order. */
  datatype FormData = FormData(
    name: string,
    email: string,
    company: string,
    phone: string,
    requestType: string,
    productInterest: seq<string>,
    message: string,
    deadline: string)

  /** The record the form starts from and is reset to after a submission. */
  const DefaultForm := FormData("", "", "", "", "quote", [], "", "")

  /** Ids of the product catalog the checkboxes offer. */
  const ProductCatalog: seq<string> :=
    ["cnc-components", "sheet-metal", "assemblies", "injection-molding", "electronics", "custom"]

  /** The step on which a field's input is rendered. */
  function StepOf(f: Field): (step: int)
    ensures step == 1 || step == 2
  {
    match f
    case Name | Email | Company | Phone => 1
    case ProductInterest | Message | Deadline => 2
  }

  /** Fields edited through a text input (everything but the checkbox list). */
  predicate IsTextField(f: Field)
  {
    f != ProductInterest
  }

  /** The value of a text input. */
  function TextOf(fd: FormData, f: Field): string
    requires IsTextField(f)
  {
    match f
    case Name => fd.name
    case Email => fd.email
    case Company => fd.company
    case Phone => fd.phone
    case Message => fd.message
    case Deadline => fd.deadline
  }

  /** `{ ...formData, [name]: value }` for a text input. */
  function WithText(fd: FormData, f: Field, v: string): (r: FormData)
    requires IsTextField(f)
    ensures TextOf(r, f) == v
    ensures forall g :: IsTextField(g) && g != f ==> TextOf(r, g) == TextOf(fd, g)
    ensures r.requestType == fd.requestType && r.productInterest == fd.productInterest
  {
    match f
    case Name => fd.(name := v)
    case Email => fd.(email := v)
    case Company => fd.(company := v)
    case Phone => fd.(phone := v)
    case Message => fd.(message := v)
    case Deadline => fd.(deadline := v)
  }

  // Error messages, one per rule.
  const NameRequired := "Name is required"
  const EmailRequired := "Email is required"
  const EmailInvalid := "Invalid email format"
  const CompanyRequired := "Company name is required"
  const PhoneInvalid := "Invalid phone number"
  const ProductRequired := "Please select at least one product interest"
  const MessageRequired := "Please provide details about your request"
  const MessageTooShort := "Message is too short. Please provide more details."

  /** Minimum length of the trimmed message. */
  const MinMessageLength := 10

  // ---------------------------------------------------------------------
  // Email: /^[^\s@]+@[^\s@]+\.[^\s@]+$/

  /** The character class `[^\s@]`. */
  predicate IsEmailChar(c: char)
  {
    !IsSpace(c) && c != '@'
  }

  /** `t` matches `[^\s@]+`. */
  predicate EmailRun(t: string)
  {
    |t| > 0 && forall j :: 0 <= j < |t| ==> IsEmailChar(t[j])
  }

  /** `s` splits as `a + "@" + b + "." + c` at the '@' index `k` and the '.'
      index `i`, each of `a`, `b` and `c` matching `[^\s@]+`. */
  predicate EmailSplitAt(s: string, k: int, i: int)
  {
    0 <= k < i < |s| && s[k] == '@' && s[i] == '.'
    && EmailRun(s[..k]) && EmailRun(s[k + 1..i]) && EmailRun(s[i + 1..])
  }

  /** The email regular expression, read as a pattern: some split exists. */
  ghost predicate MatchesEmailPattern(s: string)
  {
    exists k, i :: EmailSplitAt(s, k, i)
  }

  /** The domain part has a '.' with a character on each side. */
  predicate HasInnerDot(d: string)
  {
    exists i :: 1 <= i < |d| - 1 && d[i] == '.'
  }

  /** The email check as a computation: the first '@' has a non-empty,
      '@'-free and space-free text on its left, and on its right a space-free,
      '@'-free domain with an inner '.'. */
  predicate EmailShape(s: string)
  {
    var k := IndexOf(s, '@');
    1 <= k < |s| && EmailRun(s[..k]) && EmailRun(s[k + 1..]) && HasInnerDot(s[k + 1..])
  }

  /** The computed check and the pattern accept the same strings. */
  lemma EmailShapeMatchesPattern(s: string)
    ensures EmailShape(s) <==> MatchesEmailPattern(s)
  {
    if EmailShape(s) {
      var k := IndexOf(s, '@');
      var d := s[k + 1..];
      var j :| 1 <= j < |d| - 1 && d[j] == '.';
      assert s[k + 1..k + 1 + j] == d[..j];
      assert s[k + 1 + j + 1..] == d[j + 1..];
      assert EmailSplitAt(s, k, k + 1 + j);
    }
    if MatchesEmailPattern(s) {
      var k, i :| EmailSplitAt(s, k, i);
      EmailSplitChars(s, k, i);
      assert IndexOf(s, '@') == k;
      var d := s[k + 1..];
      assert forall j :: 0 <= j < |d| ==> d[j] == s[k + 1 + j];
      assert d[i - k - 1] == '.';
    }
  }

  /** Every character of a split email other than its '@' is of class `[^\s@]`. */
  lemma EmailSplitChars(s: string, k: int, i: int)
    requires EmailSplitAt(s, k, i)
    ensures forall j :: 0 <= j < |s| && j != k ==> IsEmailChar(s[j])
  {
    forall j | 0 <= j < |s| && j != k ensures IsEmailChar(s[j]) {
      if j < k {
        assert s[j] == s[..k][j];
      } else if k < j < i {
        assert s[j] == s[k + 1..i][j - k - 1];
      } else if i < j {
        assert s[j] == s[i + 1..][j - i - 1];
      }
    }
  }

  /** An email that matches the pattern holds exactly one '@', not at the start,
      and has no whitespace anywhere, so a leading or trailing space fails. */
  lemma EmailPatternShape(s: string)
    requires MatchesEmailPattern(s)
    ensures NoSpace(s)
    ensures exists k :: 1 <= k < |s| && s[k] == '@' && '@' !in s[..k] && '@' !in s[k + 1..]
  {
    var k, i :| EmailSplitAt(s, k, i);
    EmailSplitChars(s, k, i);
    var t := s[k + 1..];
    assert forall j :: 0 <= j < |t| ==> t[j] == s[k + 1 + j];
    assert forall j :: 0 <= j < k ==> s[..k][j] == s[j];
    assert 1 <= k < |s| && s[k] == '@' && '@' !in s[..k] && '@' !in t;
  }

  // ---------------------------------------------------------------------
  // Phone: /^[0-9+\-() ]{10,15}$/

  /** The character class `[0-9+\-() ]`. */
  predicate IsPhoneChar(c: char)
  {
    ('0' <= c <= '9') || c == '+' || c == '-' || c == '(' || c == ')' || c == ' '
  }

  /** `s` matches the phone regular expression. */
  predicate PhoneShape(s: string)
  {
    10 <= |s| <= 15 && forall j :: 0 <= j < |s| ==> IsPhoneChar(s[j])
  }

  // ---------------------------------------------------------------------
  // The rules of each step

  /** Every key the error map can have. */
  const AllFields: set<Field> := {Name, Email, Company, Phone, ProductInterest, Message, Deadline}

  /** The message `validateForm` records for field `f` when it checks the
      step `f` belongs to, or "" when `f` passes its rule. The deadline has
      no rule, and an empty phone passes. Each field has its own messages. */
  function RuleMessage(fd: FormData, f: Field): (m: string)
    ensures f == Name ==> m in {"", NameRequired}
    ensures f == Email ==> m in {"", EmailRequired, EmailInvalid}
    ensures f == Company ==> m in {"", CompanyRequired}
    ensures f == Phone ==> m in {"", PhoneInvalid} && (fd.phone == [] ==> m == "")
    ensures f == ProductInterest ==> m in {"", ProductRequired}
    ensures f == Message ==> m in {"", MessageRequired, MessageTooShort}
    ensures f == Deadline ==> m == ""
  {
    match f
    case Name => if IsBlank(fd.name) then NameRequired else ""
    case Email =>
      if IsBlank(fd.email) then EmailRequired
      else if !EmailShape(fd.email) then EmailInvalid
      else ""
    case Company => if IsBlank(fd.company) then CompanyRequired else ""
    case Phone => if fd.phone != [] && !PhoneShape(fd.phone) then PhoneInvalid else ""
    case ProductInterest => if |fd.productInterest| == 0 then ProductRequired else ""
    case Message =>
      if IsBlank(fd.message) then MessageRequired
      else if |Trim(fd.message)| < MinMessageLength then MessageTooShort
      else ""
    case Deadline => ""
  }

  /** `validateForm`'s error map `newErrors` when `currentStep == step`: only
      the rules of that step are evaluated, and a key is present exactly when
      its rule fails, with a non-empty message. */
  function StepErrors(fd: FormData, step: int): (errs: map<Field, string>)
    ensures forall f :: f in errs <==> StepOf(f) == step && RuleMessage(fd, f) != []
    ensures forall f :: f in errs ==> errs[f] == RuleMessage(fd, f)
  {
    map f | f in AllFields && StepOf(f) == step && RuleMessage(fd, f) != [] :: RuleMessage(fd, f)
  }

  /** What `validateForm` returns: the error map is empty. */
  predicate StepValid(fd: FormData, step: int)
  {
    StepErrors(fd, step) == map[]
  }

  /** Step 1, rule by rule: name and company are flagged exactly when blank;
      email is "required" when blank and otherwise flagged exactly when it
      does not match the pattern; phone is flagged exactly when non-empty and
      not phone-shaped. */
  lemma Step1Rules(fd: FormData)
    ensures Name in StepErrors(fd, 1) <==> AllSpace(fd.name)
    ensures Company in StepErrors(fd, 1) <==> AllSpace(fd.company)
    ensures AllSpace(fd.email) ==> Email in StepErrors(fd, 1) && StepErrors(fd, 1)[Email] == EmailRequired
    ensures !AllSpace(fd.email) ==>
      (Email in StepErrors(fd, 1) <==> !MatchesEmailPattern(fd.email))
      && (Email in StepErrors(fd, 1) ==> StepErrors(fd, 1)[Email] == EmailInvalid)
    ensures Phone in StepErrors(fd, 1) <==> fd.phone != [] && !PhoneShape(fd.phone)
  {
    EmailShapeMatchesPattern(fd.email);
  }

  /** Step 1 passes exactly when name and company have a non-space character,
      the email matches the pattern and the phone is empty or phone-shaped. */
  lemma Step1ValidIff(fd: FormData)
    ensures StepValid(fd, 1) <==>
      !AllSpace(fd.name) && !AllSpace(fd.company) && MatchesEmailPattern(fd.email)
      && (fd.phone == [] || PhoneShape(fd.phone))
  {
    Step1Rules(fd);
    if MatchesEmailPattern(fd.email) {
      EmailPatternShape(fd.email);
      assert !AllSpace(fd.email) by {
        assert !IsSpace(fd.email[0]);
      }
    }
  }

  /** A non-blank email with whitespace at either end is "Invalid email format". */
  lemma OuterSpaceEmailInvalid(fd: FormData)
    requires !AllSpace(fd.email)
    requires IsSpace(fd.email[0]) || IsSpace(fd.email[|fd.email| - 1])
    ensures Email in StepErrors(fd, 1) && StepErrors(fd, 1)[Email] == EmailInvalid
  {
    Step1Rules(fd);
    if MatchesEmailPattern(fd.email) {
      EmailPatternShape(fd.email);
      assert false;
    }
  }

  /** Step 2, rule by rule: the product list is flagged exactly when empty; the
      message is "required" when blank and "too short" when its trimmed length
      is 1 to 9. */
  lemma Step2Rules(fd: FormData)
    ensures ProductInterest in StepErrors(fd, 2) <==> fd.productInterest == []
    ensures Message in StepErrors(fd, 2) <==> |Trim(fd.message)| < MinMessageLength
    ensures AllSpace(fd.message) ==> StepErrors(fd, 2)[Message] == MessageRequired
    ensures !AllSpace(fd.message) && |Trim(fd.message)| < MinMessageLength ==>
      StepErrors(fd, 2)[Message] == MessageTooShort
  {
  }

  /** A field's rule reads that field only. */
  lemma RuleReadsOwnField(a: FormData, b: FormData, g: Field)
    requires g == Name ==> a.name == b.name
    requires g == Email ==> a.email == b.email
    requires g == Company ==> a.company == b.company
    requires g == Phone ==> a.phone == b.phone
    requires g == ProductInterest ==> a.productInterest == b.productInterest
    requires g == Message ==> a.message == b.message
    ensures RuleMessage(a, g) == RuleMessage(b, g)
  {
  }

  /** Editing one text input leaves every other field's rule message as it was. */
  lemma EditKeepsOtherRules(fd: FormData, f: Field, v: string, g: Field)
    requires IsTextField(f) && g != f
    ensures RuleMessage(WithText(fd, f, v), g) == RuleMessage(fd, g)
  {
    var fd' := WithText(fd, f, v);
    if IsTextField(g) {
      assert TextOf(fd', g) == TextOf(fd, g);
    }
    RuleReadsOwnField(fd', fd, g);
  }

  /** Editing a field rendered on one step leaves the other step's verdict as it was. */
  lemma EditKeepsOtherStep(fd: FormData, f: Field, v: string, step: int)
    requires IsTextField(f) && StepOf(f) != step
    ensures StepErrors(WithText(fd, f, v), step) == StepErrors(fd, step)
  {
    var fd' := WithText(fd, f, v);
    forall g | StepOf(g) == step ensures RuleMessage(fd', g) == RuleMessage(fd, g) {
      EditKeepsOtherRules(fd, f, v, g);
    }
    assert StepErrors(fd', step).Keys == StepErrors(fd, step).Keys;
  }

  /** Step 1 reads only the four contact fields: forms that agree on them
      get the same step-1 errors. */
  lemma Step1ReadsContactFields(a: FormData, b: FormData)
    requires a.name == b.name && a.email == b.email && a.company == b.company && a.phone == b.phone
    ensures StepErrors(a, 1) == StepErrors(b, 1)
  {
    assert forall g :: StepOf(g) == 1 ==> RuleMessage(a, g) == RuleMessage(b, g);
    assert StepErrors(a, 1).Keys == StepErrors(b, 1).Keys;
  }

  /** No catalog id holds a comma, so a joined selection splits back. */
  lemma CatalogIdsCommaFree()
    ensures forall j :: 0 <= j < |ProductCatalog| ==> ',' !in ProductCatalog[j]
  {
  }

  // Examples of the phone rule.
  lemma ShortPhoneFlagged()
    ensures Phone in StepErrors(FormData("", "", "", "12345", "quote", [], "", ""), 1)
  {
  }

  lemma FormattedPhoneAccepted()
    ensures PhoneShape("(555) 123-4567")
  {
  }
}
