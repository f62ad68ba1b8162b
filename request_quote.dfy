/**
 * The quote-request wizard (src/components/pages/RequestQuote.jsx). Step 1 collects the
 * contact details, step 2 the project details, step 3 is the confirmation. "Next" moves on
 * only when the current step validates, "Back" moves without validating, and submitting
 * validates the project details, sends a one-line quote request to the quote store and
 * shows the confirmation.
 */
module RequestQuote {
  import opened Wrappers
  import opened JsValue
  import opened JsString
  import opened Sequences
  import opened FormRules
  import opened ProductService
  import opened QuoteService

  /** The text inputs of the wizard, by their `name` attribute (the file input for drawings
      is not modelled). */
  datatype WizardField =
    | Name | Email | Phone | Company
    | ProductCategory | ProductName | Quantity | Timeline | Specifications | Materials | AdditionalNotes

  const WizardFields: set<WizardField> := {Name, Email, Phone, Company, ProductCategory, ProductName,
                                           Quantity, Timeline, Specifications, Materials, AdditionalNotes}

  /** The inputs of step 1; every other text input is on step 2. */
  const ContactFields: set<WizardField> := {Name, Email, Phone, Company}
  const Step1Fields: set<WizardField> := {Name, Email, Company}
  const Step2Fields: set<WizardField> := {ProductCategory, Quantity, Timeline}

  type WizardData = FormData<WizardField>
  type WizardErrors = Errors<WizardField>

  /** `v || ''` for a property read out of a product into a text field. */
  function TextOr(v: Option<Value>): (s: string)
    ensures v.Some? && v.value.Str? ==> s == v.value.s
    ensures !(v.Some? && v.value.Str?) ==> s == ""
  {
    match v
    case Some(Str(s)) => s
    case _ => ""
  }

  /** `product?.materials?.[0] || ''`: the first material of a list, the first character of
      a string, otherwise nothing. */
  function FirstMaterial(product: Option<Record>): (m: string)
    ensures product.None? ==> m == ""
    ensures product.Some? && Get(product.value, "materials").Some? ==>
              match product.value["materials"]
              case Arr(items) => m == if items != [] && items[0].Str? then items[0].s else ""
              case Str(s) => m == if s != "" then [s[0]] else ""
              case _ => m == ""
  {
    if product.None? then ""
    else match Get(product.value, "materials")
      case Some(Arr(items)) => if items != [] then TextOr(Some(items[0])) else ""
      case Some(Str(s)) => if s != "" then [s[0]] else ""
      case _ => ""
  }

  /** The form as the page opens it, prefilled from the product it was reached from. */
  function InitialFormData(selected: Option<Record>): (d: WizardData)
    ensures d.Keys == WizardFields
    ensures forall f :: f in d && f !in {ProductCategory, ProductName, Materials} ==> d[f] == ""
    ensures d[ProductCategory] == if selected.None? then "" else TextOr(Get(selected.value, "category"))
    ensures d[ProductName] == if selected.None? then "" else TextOr(Get(selected.value, "name"))
    ensures d[Materials] == FirstMaterial(selected)
  {
    var category := if selected.None? then "" else TextOr(Get(selected.value, "category"));
    var name := if selected.None? then "" else TextOr(Get(selected.value, "name"));
    map[Name := "", Email := "", Phone := "", Company := "",
        ProductCategory := category, ProductName := name, Quantity := "", Timeline := "",
        Specifications := "", Materials := FirstMaterial(selected), AdditionalNotes := ""]
  }

  /** `if (!value) error = message`: step 2 tests emptiness without trimming. */
  function NonEmpty(value: string, message: string): (e: Option<string>)
    ensures e.Some? <==> value == ""
    ensures e.Some? ==> e.value == message
  {
    if value == "" then Some(message) else None
  }

  /** The messages of step 1: a blank name, a blank or malformed email, a blank company. */
  function ContactErrors(data: WizardData): WizardErrors {
    Entry(Name, Required(Field(data, Name), "Name is required"))
    + Entry(Email, EmailError(Field(data, Email)))
    + Entry(Company, Required(Field(data, Company), "Company is required"))
  }

  /** The messages of step 2: an empty category, quantity or timeline. */
  function ProjectErrors(data: WizardData): WizardErrors {
    Entry(ProductCategory, NonEmpty(Field(data, ProductCategory), "Product category is required"))
    + Entry(Quantity, NonEmpty(Field(data, Quantity), "Quantity is required"))
    + Entry(Timeline, NonEmpty(Field(data, Timeline), "Timeline is required"))
  }

  /** The error map `validateStep(stepNumber)` builds: the contact details are checked at
      step 1, the project details at step 2, nothing at any other step. */
  function StepErrors(data: WizardData, stepNumber: int): WizardErrors {
    if stepNumber == 1 then ContactErrors(data)
    else if stepNumber == 2 then ProjectErrors(data)
    else map[]
  }

  // ---------------------------------------------------------------------------
  // The quote request sent on submit
  // ---------------------------------------------------------------------------

  /** `parseInt(s, 10)` as a number value. */
  function ParsedNumber(s: string): (v: Value)
    ensures ParseInt(s).None? ==> v == NaN
    ensures ParseInt(s).Some? ==> v == Num(ParseInt(s).value)
  {
    match ParseInt(s)
    case None => NaN
    case Some(n) => Num(n)
  }

  function Text(data: WizardData, f: WizardField): Value {
    Str(Field(data, f))
  }

  /** The request's `customerInfo`: the contact details as typed. */
  function CustomerInfo(data: WizardData): Value {
    Obj(map["name" := Text(data, Name), "email" := Text(data, Email),
            "phone" := Text(data, Phone), "company" := Text(data, Company)])
  }

  /** The request's single product line. */
  function ProductLine(data: WizardData): Value {
    Obj(map["productCategory" := Text(data, ProductCategory),
            "productName" := Text(data, ProductName),
            "quantity" := ParsedNumber(Field(data, Quantity)),
            "specifications" := Text(data, Specifications),
            "materials" := Text(data, Materials)])
  }

  /** The `quoteData` object `handleSubmit` composes. */
  function QuotePayload(data: WizardData): Record {
    map["customerInfo" := CustomerInfo(data),
        "products" := Arr([ProductLine(data)]),
        "specifications" := Text(data, AdditionalNotes),
        "timeline" := Text(data, Timeline),
        "quantity" := ParsedNumber(Field(data, Quantity))]
  }

  /** `products.map(p => p.category)`; an absent category is `None`. */
  function CategoryColumn(products: seq<Record>): seq<Option<Value>> {
    seq(|products|, i requires 0 <= i < |products| => Get(products[i], "category"))
  }

  /** `[...new Set(products.map(p => p.category))]`. */
  function Categories(products: seq<Record>): seq<Option<Value>> {
    Dedup(CategoryColumn(products))
  }

  /** What `p.materials || []` contributes to `flatMap`: the items of a list, a single
      other truthy value, nothing for a falsy one. */
  function MaterialsOf(p: Record): seq<Value> {
    var m := Get(p, "materials");
    if !Truthy(m) then [] else match m.value
      case Arr(items) => items
      case v => [v]
  }

  function FlatMaterials(products: seq<Record>): seq<Value>
    decreases |products|
  {
    if products == [] then []
    else FlatMaterials(products[..|products| - 1]) + MaterialsOf(products[|products| - 1])
  }

  /** `[...new Set(products.flatMap(p => p.materials || []))]`. */
  function MaterialOptions(products: seq<Record>): seq<Value> {
    Dedup(FlatMaterials(products))
  }

  // ---------------------------------------------------------------------------
  // The page state
  // ---------------------------------------------------------------------------

  class QuoteWizard {
    var formData: WizardData
    var errors: WizardErrors
    var step: int
    var products: seq<Record>
    const selectedProduct: Option<Record>
    const quotes: QuoteService

    /** Every text input has a value, the step is one of the three the page renders, the
        contact details shown at step 1 passed its checks once the wizard is past it, and the
        quote store is well formed. */
    ghost predicate Valid()
      reads this, quotes
    {
      && WizardFields <= formData.Keys && 1 <= step <= 3
      && (step >= 2 ==> ContactErrors(formData) == map[])
      && quotes.Valid()
    }

    /** The page as it opens: the prefilled form, no errors, step 1 and no products yet. */
    constructor (selectedProduct: Option<Record>, quotes: QuoteService)
      requires quotes.Valid()
      ensures Valid()
      ensures formData == InitialFormData(selectedProduct) && errors == map[] && step == 1
      ensures products == [] && this.selectedProduct == selectedProduct && this.quotes == quotes
    {
      formData := InitialFormData(selectedProduct);
      errors := map[];
      step := 1;
      products := [];
      this.selectedProduct := selectedProduct;
      this.quotes := quotes;
    }

    /** `loadProducts`: the product list from the product store. */
    method LoadProducts(store: ProductService)
      requires Valid()
      modifies this
      ensures Valid()
      ensures products == store.products
      ensures formData == old(formData) && errors == old(errors) && step == old(step)
    {
      products := store.GetAll();
    }

    /** `handleChange` for a text input: the field takes the value, and its message, if one
        is shown, is blanked. The contact inputs are rendered only at step 1, the project
        inputs only at step 2; the category has no input of its own (the chips set it). */
    method HandleChange(name: WizardField, value: string)
      requires Valid()
      requires name != ProductCategory
      requires step == if name in ContactFields then 1 else 2
      modifies this
      ensures Valid()
      ensures formData == old(formData)[name := value]
      ensures errors == ClearError(old(errors), name)
      ensures step == old(step) && products == old(products)
    {
      if step == 2 {
        ContactErrorsReads(formData[name := value], formData);
      }
      formData := formData[name := value];
      if name in errors && errors[name] != "" {
        errors := errors[name := ""];
      }
    }

    /** `handleProductSelect`: category, name and first material taken from the product. */
    method HandleProductSelect(product: Record)
      requires Valid()
      modifies this
      ensures Valid()
      ensures formData == old(formData)[ProductCategory := TextOr(Get(product, "category"))]
                                       [ProductName := TextOr(Get(product, "name"))]
                                       [Materials := FirstMaterial(Some(product))]
      ensures errors == old(errors) && step == old(step) && products == old(products)
    {
      ContactErrorsReads(formData[ProductCategory := TextOr(Get(product, "category"))]
                                 [ProductName := TextOr(Get(product, "name"))]
                                 [Materials := FirstMaterial(Some(product))], formData);
      formData := formData[ProductCategory := TextOr(Get(product, "category"))]
                          [ProductName := TextOr(Get(product, "name"))]
                          [Materials := FirstMaterial(Some(product))];
    }

    /** The category buttons, rendered only at step 2 and only when the page was not opened
        from a product: pick that category. */
    method SelectCategory(category: string)
      requires Valid() && step == 2 && selectedProduct.None?
      modifies this
      ensures Valid()
      ensures formData == old(formData)[ProductCategory := category]
      ensures errors == old(errors) && step == old(step) && products == old(products)
    {
      ContactErrorsReads(formData[ProductCategory := category], formData);
      formData := formData[ProductCategory := category];
    }

    /** `validateStep`: the messages of that step replace the previous ones wholesale, and
        the step passes exactly when there are none. */
    method ValidateStep(stepNumber: int) returns (ok: bool)
      requires Valid()
      modifies this
      ensures Valid()
      ensures errors == StepErrors(formData, stepNumber)
      ensures ok <==> errors == map[]
      ensures formData == old(formData) && step == old(step) && products == old(products)
    {
      var newErrors: WizardErrors := map[];
      if stepNumber == 1 {
        var name := Required(Field(formData, Name), "Name is required");
        var email := EmailError(Field(formData, Email));
        var company := Required(Field(formData, Company), "Company is required");
        AddEntry(newErrors, Name, name);
        if name.Some? {
          newErrors := newErrors[Name := name.value];
        }
        assert newErrors == Entry(Name, name);
        AddEntry(newErrors, Email, email);
        if email.Some? {
          newErrors := newErrors[Email := email.value];
        }
        AddEntry(newErrors, Company, company);
        if company.Some? {
          newErrors := newErrors[Company := company.value];
        }
      }
      if stepNumber == 2 {
        var category := NonEmpty(Field(formData, ProductCategory), "Product category is required");
        var quantity := NonEmpty(Field(formData, Quantity), "Quantity is required");
        var timeline := NonEmpty(Field(formData, Timeline), "Timeline is required");
        AddEntry(newErrors, ProductCategory, category);
        if category.Some? {
          newErrors := newErrors[ProductCategory := category.value];
        }
        assert newErrors == Entry(ProductCategory, category);
        AddEntry(newErrors, Quantity, quantity);
        if quantity.Some? {
          newErrors := newErrors[Quantity := quantity.value];
        }
        AddEntry(newErrors, Timeline, timeline);
        if timeline.Some? {
          newErrors := newErrors[Timeline := timeline.value];
        }
      }
      assert newErrors == StepErrors(formData, stepNumber);
      errors := newErrors;
      ok := |newErrors| == 0;
    }

    /** `handleNext`, the "Continue" button that only step 1 shows: on to step 2 when the
        contact details validate, otherwise stay. */
    method HandleNext()
      requires Valid() && step == 1
      modifies this
      ensures Valid()
      ensures errors == StepErrors(old(formData), 1)
      ensures step == if errors == map[] then 2 else 1
      ensures formData == old(formData) && products == old(products)
    {
      var ok := ValidateStep(step);
      if ok {
        step := step + 1;
      }
    }

    /** `handlePrevious`, the "Back" button that only step 2 shows: back to step 1, without
        validating or touching the form. */
    method HandlePrevious()
      requires Valid() && step == 2
      modifies this
      ensures Valid()
      ensures step == 1
      ensures formData == old(formData) && errors == old(errors) && products == old(products)
    {
      step := step - 1;
    }

    /** `handleSubmit`: nothing is sent unless the project details validate; otherwise the
        composed request goes to `submitQuote` and the confirmation step is shown. What the
        store recorded is returned. The form runs it only at step 2, and step 3 is reached
        only here, once the store holds one more quote. */
    method HandleSubmit(now: string) returns (submitted: Option<Record>)
      requires Valid() && step == 2
      modifies this, quotes
      ensures Valid()
      ensures errors == StepErrors(old(formData), 2)
      ensures formData == old(formData) && products == old(products)
      ensures errors != map[] ==> submitted.None? && step == 2 && quotes.quotes == old(quotes.quotes)
      ensures errors == map[] ==>
                && submitted == Some(Stamped(QuotePayload(formData), EntityTable.NextId(old(quotes.quotes)), now))
                && quotes.quotes == old(quotes.quotes) + [submitted.value]
                && step == 3
      ensures step == 3 <==> |quotes.quotes| == |old(quotes.quotes)| + 1
      ensures submitted.Some? ==> ContactErrors(formData) == map[] && ProjectErrors(formData) == map[]
    {
      var ok := ValidateStep(2);
      if !ok {
        submitted := None;
        return;
      }
      var quoteData := QuotePayload(formData);
      var created := quotes.SubmitQuote(quoteData, now);
      step := 3;
      submitted := Some(created);
    }

    /** The form's `onSubmit` while a form is shown (steps 1 and 2): `handleSubmit` at step 2;
        at step 1 the event is only prevented, and nothing changes. */
    method SubmitForm(now: string) returns (submitted: Option<Record>)
      requires Valid() && step < 3
      modifies this, quotes
      ensures Valid()
      ensures old(step) == 1 ==> submitted.None? && step == 1 && errors == old(errors)
                                 && quotes.quotes == old(quotes.quotes)
      ensures old(step) == 2 ==> errors == StepErrors(old(formData), 2)
                                 && (step == 3 <==> errors == map[])
                                 && (step == 3 ==> submitted.Some? && quotes.quotes == old(quotes.quotes) + [submitted.value])
                                 && (step != 3 ==> submitted.None? && quotes.quotes == old(quotes.quotes))
      ensures formData == old(formData) && products == old(products)
    {
      if step == 2 {
        submitted := HandleSubmit(now);
      } else {
        submitted := None;
      }
    }
  }

  // ---------------------------------------------------------------------------
  // Properties of the wizard
  // ---------------------------------------------------------------------------

  /** Step 1 checks only the contact fields, and reports a blank name and a blank company. */
  lemma StepOneRequired(data: WizardData)
    ensures var e := StepErrors(data, 1);
            && e.Keys <= Step1Fields
            && (Name in e <==> IsBlank(Field(data, Name)))
            && (Name in e ==> e[Name] == "Name is required")
            && (Company in e <==> IsBlank(Field(data, Company)))
            && (Company in e ==> e[Company] == "Company is required")
  {
    RequiredSpec(Field(data, Name), "Name is required");
    RequiredSpec(Field(data, Company), "Company is required");
    Entries3(Name, Required(Field(data, Name), "Name is required"), Email, EmailError(Field(data, Email)),
             Company, Required(Field(data, Company), "Company is required"));
  }

  /** The email message of step 1: "required" when blank, else "invalid" when the regular
      expression finds no match, else none. */
  lemma StepOneEmail(data: WizardData)
    ensures var e := StepErrors(data, 1);
            && (Email in e && e[Email] == EmailRequired <==> IsBlank(Field(data, Email)))
            && (Email in e && e[Email] == EmailInvalid
                <==> !IsBlank(Field(data, Email)) && !EmailRegexMatches(Field(data, Email)))
            && (Email !in e <==> !IsBlank(Field(data, Email)) && EmailRegexMatches(Field(data, Email)))
  {
    EmailErrorSpec(Field(data, Email));
    Entries3(Name, Required(Field(data, Name), "Name is required"), Email, EmailError(Field(data, Email)),
             Company, Required(Field(data, Company), "Company is required"));
  }

  /** Step 2 reports exactly the empty project fields, without trimming them. */
  lemma StepTwoErrors(data: WizardData)
    ensures var e := StepErrors(data, 2);
            && e.Keys <= Step2Fields
            && (ProductCategory in e <==> Field(data, ProductCategory) == "")
            && (Quantity in e <==> Field(data, Quantity) == "")
            && (Timeline in e <==> Field(data, Timeline) == "")
  {
    Entries3(ProductCategory, NonEmpty(Field(data, ProductCategory), "Product category is required"),
             Quantity, NonEmpty(Field(data, Quantity), "Quantity is required"),
             Timeline, NonEmpty(Field(data, Timeline), "Timeline is required"));
  }

  /** The messages of step 2. */
  lemma StepTwoMessages(data: WizardData)
    ensures var e := StepErrors(data, 2);
            && (ProductCategory in e ==> e[ProductCategory] == "Product category is required")
            && (Quantity in e ==> e[Quantity] == "Quantity is required")
            && (Timeline in e ==> e[Timeline] == "Timeline is required")
  {
    Entries3(ProductCategory, NonEmpty(Field(data, ProductCategory), "Product category is required"),
             Quantity, NonEmpty(Field(data, Quantity), "Quantity is required"),
             Timeline, NonEmpty(Field(data, Timeline), "Timeline is required"));
  }

  /** A step number other than 1 and 2 always validates. */
  lemma OtherStepsPass(data: WizardData, stepNumber: int)
    requires stepNumber != 1 && stepNumber != 2
    ensures StepErrors(data, stepNumber) == map[]
  {
  }

  /** Step 1 reads nothing but the name, the email and the company. */
  lemma ContactErrorsReads(a: WizardData, b: WizardData)
    requires Field(a, Name) == Field(b, Name) && Field(a, Email) == Field(b, Email)
    requires Field(a, Company) == Field(b, Company)
    ensures ContactErrors(a) == ContactErrors(b)
  {
  }

  /** Step 2 reads nothing but the category, the quantity and the timeline. */
  lemma ProjectErrorsReads(a: WizardData, b: WizardData)
    requires Field(a, ProductCategory) == Field(b, ProductCategory) && Field(a, Quantity) == Field(b, Quantity)
    requires Field(a, Timeline) == Field(b, Timeline)
    ensures ProjectErrors(a) == ProjectErrors(b)
  {
  }

  /** The phone number is never checked: it gets no message at any step. */
  lemma PhoneNeverReported(data: WizardData, stepNumber: int)
    ensures Phone !in StepErrors(data, stepNumber)
  {
  }

  /** Nor does its value change any message. */
  lemma PhoneNeverChecked(data: WizardData, stepNumber: int, phone: string)
    ensures StepErrors(data[Phone := phone], stepNumber) == StepErrors(data, stepNumber)
  {
    var d := data[Phone := phone];
    if stepNumber == 1 {
      ContactErrorsReads(d, data);
    } else if stepNumber == 2 {
      ProjectErrorsReads(d, data);
    }
  }

  /** Blank space counts as a value at step 2 but not at step 1. */
  lemma SpaceIsAValueOnlyAtStepTwo(data: WizardData)
    requires Field(data, Quantity) == " " && Field(data, Name) == " "
    ensures Quantity !in StepErrors(data, 2)
    ensures Name in StepErrors(data, 1)
  {
    StepOneRequired(data);
    StepTwoErrors(data);
    assert IsWhite(Field(data, Name)[0]);
  }

  /** The freshly opened page cannot leave step 1, whatever product it was reached from. */
  lemma InitialFormFailsStepOne(selected: Option<Record>)
    ensures StepErrors(InitialFormData(selected), 1)
            == map[Name := "Name is required", Email := EmailRequired, Company := "Company is required"]
  {
    var d := InitialFormData(selected);
    assert Field(d, Name) == "" && Field(d, Email) == "" && Field(d, Company) == "";
    assert Trim("") == "";
    assert Required("", "Name is required") == Some("Name is required");
    assert Required("", "Company is required") == Some("Company is required");
    assert EmailError("") == Some(EmailRequired);
  }

  /** With no product chosen, it cannot leave step 2 either. */
  lemma InitialFormFailsStepTwo()
    ensures StepErrors(InitialFormData(None), 2)
            == map[ProductCategory := "Product category is required", Quantity := "Quantity is required",
                   Timeline := "Timeline is required"]
  {
    var d := InitialFormData(None);
    assert Field(d, ProductCategory) == "" && Field(d, Quantity) == "" && Field(d, Timeline) == "";
  }

  /** The request carries exactly the customer, one product line, the notes, the timeline
      and the quantity. */
  lemma PayloadKeys(data: WizardData)
    ensures QuotePayload(data).Keys == {"customerInfo", "products", "specifications", "timeline", "quantity"}
  {
  }

  /** One product line, whose quantity is the request's: both are `parseInt` of the
      quantity field. */
  lemma PayloadQuantities(data: WizardData)
    ensures QuotePayload(data)["products"] == Arr([ProductLine(data)])
    ensures ProductLine(data).Obj? && "quantity" in ProductLine(data).fields
    ensures ProductLine(data).fields["quantity"] == QuotePayload(data)["quantity"]
                                                == ParsedNumber(Field(data, Quantity))
  {
  }

  /** The request's specifications are the additional notes; the line's are the
      specifications field. */
  lemma PayloadNotes(data: WizardData)
    ensures QuotePayload(data)["specifications"] == Str(Field(data, AdditionalNotes))
    ensures ProductLine(data).Obj? && "specifications" in ProductLine(data).fields
    ensures ProductLine(data).fields["specifications"] == Str(Field(data, Specifications))
  {
  }

  /** The product line names the category, the product and the material as entered, and the
      request carries the timeline as chosen. */
  lemma PayloadLine(data: WizardData)
    ensures QuotePayload(data)["timeline"] == Str(Field(data, Timeline))
    ensures ProductLine(data).Obj?
    ensures ProductLine(data).fields.Keys
              == {"productCategory", "productName", "quantity", "specifications", "materials"}
    ensures var line := ProductLine(data).fields;
            && line["productCategory"] == Str(Field(data, ProductCategory))
            && line["productName"] == Str(Field(data, ProductName))
            && line["materials"] == Str(Field(data, Materials))
  {
  }

  /** The request reports back the contact details as typed. */
  lemma PayloadCustomer(data: WizardData)
    ensures QuotePayload(data)["customerInfo"] == CustomerInfo(data)
    ensures CustomerInfo(data).Obj? && CustomerInfo(data).fields.Keys == {"name", "email", "phone", "company"}
  {
  }

  lemma CustomerInfoFields(data: WizardData)
    ensures var c := CustomerInfo(data).fields;
            && c["name"] == Str(Field(data, Name)) && c["email"] == Str(Field(data, Email))
            && c["phone"] == Str(Field(data, Phone)) && c["company"] == Str(Field(data, Company))
  {
  }

  /** A quantity typed as a decimal number arrives as that number; one without a leading
      digit arrives as NaN. */
  lemma PayloadQuantity(data: WizardData, n: nat)
    ensures Field(data, Quantity) == Decimal(n) ==> QuotePayload(data)["quantity"] == Num(n)
    ensures Field(data, Quantity) == "abc" ==> QuotePayload(data)["quantity"] == NaN
  {
    ParseIntDecimal(n);
    if Field(data, Quantity) == "abc" {
      var s := Field(data, Quantity);
      assert !IsWhite(s[0]) && !IsDigit(s[0]);
      assert TrimStart(s) == s;
    }
  }

  /** The category chips list every category once, in the order the products first show
      it. */
  lemma CategoriesSpec(products: seq<Record>)
    ensures var c := Categories(products);
            && Distinct(c)
            && (forall v :: v in c <==> exists i :: 0 <= i < |products| && Get(products[i], "category") == v)
            && (forall v :: v in c <==> v in CategoryColumn(products))
            && (forall k, l :: 0 <= k < l < |c| ==>
                  FirstIndex(CategoryColumn(products), c[k]) < FirstIndex(CategoryColumn(products), c[l]))
  {
    var all := CategoryColumn(products);
    DedupSpec(all);
    forall v ensures v in all <==> exists i :: 0 <= i < |products| && Get(products[i], "category") == v {
      if v in all {
        var i :| 0 <= i < |all| && all[i] == v;
        assert Get(products[i], "category") == v;
      }
      if exists i :: 0 <= i < |products| && Get(products[i], "category") == v {
        var i :| 0 <= i < |products| && Get(products[i], "category") == v;
        assert all[i] == v;
      }
    }
  }

  /** The material list holds every material of every product and nothing else, once
      each. */
  lemma MaterialsSpec(products: seq<Record>)
    ensures var m := MaterialOptions(products);
            && Distinct(m)
            && (forall v :: v in m <==> v in FlatMaterials(products))
            && (forall i, v :: 0 <= i < |products| && v in MaterialsOf(products[i]) ==> v in m)
            && (forall v :: v in m ==> exists i :: 0 <= i < |products| && v in MaterialsOf(products[i]))
  {
    DedupSpec(FlatMaterials(products));
    forall i, v | 0 <= i < |products| && v in MaterialsOf(products[i]) ensures v in FlatMaterials(products) {
      FlatMaterialsContains(products, i);
    }
    FlatMaterialsFrom(products);
  }

  lemma {:induction false} FlatMaterialsContains(products: seq<Record>, i: nat)
    requires i < |products|
    ensures forall v :: v in MaterialsOf(products[i]) ==> v in FlatMaterials(products)
    decreases |products|
  {
    if i < |products| - 1 {
      FlatMaterialsContains(products[..|products| - 1], i);
    }
  }

  /** `flatMap` adds nothing of its own: every item comes from some product's materials. */
  lemma {:induction false} FlatMaterialsFrom(products: seq<Record>)
    ensures forall v :: v in FlatMaterials(products) ==>
              exists i :: 0 <= i < |products| && v in MaterialsOf(products[i])
    decreases |products|
  {
    if products != [] {
      var init := products[..|products| - 1];
      FlatMaterialsFrom(init);
      forall v | v in FlatMaterials(products)
        ensures exists i :: 0 <= i < |products| && v in MaterialsOf(products[i])
      {
        if v in FlatMaterials(init) {
          var i :| 0 <= i < |init| && v in MaterialsOf(init[i]);
          assert init[i] == products[i];
        } else {
          assert v in MaterialsOf(products[|products| - 1]);
        }
      }
    }
  }
}
