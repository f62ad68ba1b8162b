# PrecisionForge: stores, quote wizard, product grid and contact form

This project models the logic of a manufacturing company's marketing site:

- **The three in-memory entity stores.** These are the product catalogue, the quote requests and the quality certifications.
  - Each store is a table of records keyed by a numeric `Id`.
  - `create` issues one more than the largest Id present, or 1 for an empty table.
  - `getById` finds the first record with that Id.
  - `update` merges a patch over the record and puts its original Id back.
  - `delete` splices the record out.
  - The product store also filters by exact category and searches case-insensitively.
- **The quote-request wizard.** It has three steps: contact details, project details and the confirmation.
  - Its form starts prefilled from the product the visitor came from.
  - Each step has a validator.
  - "Next" moves on only when the current step validates. "Back" moves without validating.
  - Submitting validates the project details and sends a request with one product line to the quote store. Only then does the wizard show the confirmation.
- **The product grid's pipeline.** It applies the category filter, then the text filter, then the grid's limit. It also decides when the "View All" button appears.
- **The contact form.** It validates the name, the email and the message, and hands a valid form to the page's callback. It clears itself after a successful send and keeps its contents after a failed one.

## Layout

Supporting modules:
- `Wrappers`: the `Option` and `Result` types.
- `JsValue`: the JavaScript values held in records, and truthiness.
- `JsString`: the string primitives with their ECMAScript meaning: `trim`, `toLowerCase` (ASCII letters), `includes`, `parseInt(s, 10)` and the unanchored pattern `\S+@\S+\.\S+`.
- `Sequences`: `filter` as an order-preserving selection, and the first-occurrence deduplication of `[...new Set(xs)]`.
- `EntityTable`: the table operations the three stores share.
- `FormRules`: the validation rules both forms use.

The model's state:
- Each store is a class whose sequence field its `Create`/`Update`/`Delete` methods reassign. Its reads are functions.
- The wizard is the class `QuoteWizard`. Its fields are `step`, `formData`, `errors`, `products` and the quote store.
- The contact form is the class `ContactForm`, with fields `formData` and `errors`.
- Each validator builds its message map one field at a time, as the source does. The map it must produce is a function, `StepErrors` or `FormErrors`, and the lemmas state what that function reports.

Modelling decisions:
- **Ids can be re-issued.** `create` issues one more than the largest Id left in the table, recomputed on every call. Deleting a record right after creating it therefore lets the next `create` issue its Id again, which `EntityTable.DeletedIdIsReissued` proves. In general a deleted Id can be issued again later, once the largest remaining Id is one below it. Nothing in the model claims that Ids are never reused.
- **Submitting a quote cannot fail.** `submitQuote` is `create` on an in-memory array, and that cannot reject. The store's `Create` therefore has no failure outcome, and `HandleSubmit` always reaches step 3 once step 2 validates.
- **Each action happens only where the page renders it.** "Continue" exists only at step 1, and "Back" and "Submit" only at step 2. The form's submit event runs `handleSubmit` only at step 2, and at step 1 it is only prevented. No form is shown at step 3. The wizard's methods therefore require the step at which their control exists: "Continue" and the contact inputs at step 1; "Back", the submit, the category chips and the project inputs at step 2. `Valid()` keeps the step between 1 and 3, and past step 1 it keeps the contact details free of step-1 messages, since they can no longer be edited. Step 3 is entered only by `HandleSubmit`, and only together with one more quote in the store.
- **Searching can fail.** It throws a `TypeError` when it reaches a record whose name, description or category is not a string. This is modelled as a `Failure` result, in the product store and in the grid.

## Model

| member | source | states |
|---|---|---|
| Sequences.Filter | src/services/api/productService.js:54 | `filter`; what it keeps is stated by `FilterSelects` and, as the only such subsequence, by `SelectsUnique` |
| Sequences.Dedup | src/components/pages/RequestQuote.jsx:159-160 | `[...new Set(xs)]`; its members, distinctness and order are stated by `DedupSpec` |
| EntityTable.FindIndex | src/services/api/productService.js:70 | `findIndex`: -1 exactly when no record has the Id, otherwise a position holding the Id with no earlier one |
| EntityTable.MaxId | src/services/api/productService.js:59 | `Math.max` over the Ids: no Id exceeds it and some record carries it |
| EntityTable.NextId | src/services/api/productService.js:59-62 | the new Id is greater than every Id present, is 1 for an empty table, and otherwise is one more than an Id present |
| EntityTable.Merge | src/services/api/productService.js:75-79 | the merged record has the keys of both, the patch wins on every key but `Id`, and the original `Id` is kept even when the patch carries another |
| EntityTable.RemoveAt | src/services/api/productService.js:92-93 | `splice(i, 1)`: one record fewer, those before i unchanged, those after shifted down by one in order |
| EntityTable.CreateThenFind | src/services/api/productService.js:57-66 | a record created with the next Id is the one a lookup of that Id finds, at the end of the table |
| EntityTable.CreateKeepsUnique | src/services/api/productService.js:57-66 | appending with the next Id keeps the Ids pairwise distinct |
| EntityTable.UpdateKeepsIds | src/services/api/productService.js:75-81 | an update leaves every record's Id as it was |
| EntityTable.UpdateKeepsUnique | src/services/api/productService.js:75-81 | an update keeps the Ids pairwise distinct |
| EntityTable.DeleteKeepsNumericIds | src/services/api/productService.js:93 | after a delete every record still has a numeric Id |
| EntityTable.DeleteKeepsUnique | src/services/api/productService.js:93 | a delete keeps the Ids pairwise distinct |
| EntityTable.DeleteThenNotFound | src/services/api/productService.js:85-95 | with distinct Ids, a deleted Id is no longer found |
| EntityTable.DeletedIdIsReissued | src/services/api/certificationService.js:43-81 | creating a record and deleting it gives the next create the same Id again |
| ProductService.LowerField | src/services/api/productService.js:102-104 | `p[key].toLowerCase()` is defined exactly when the property is a string, and is then its lowercase form |
| ProductService.MatchesTerm | src/services/api/productService.js:101-105 | on a record whose three fields are strings, true exactly when one of them contains the term; whenever it does not throw, true exactly when some string field among the three contains the term; throws exactly when the first field the test reaches that is not a string comes before any match |
| ProductService.SearchRecords | src/services/api/productService.js:97-107 | fails exactly when the test throws on some record, otherwise returns exactly the matching records in store order |
| ProductService.SearchIgnoresQueryCase | src/services/api/productService.js:97-107 | searching for the lowercased query gives the same outcome as the query as typed |
| ProductService.ProductService.constructor | src/services/api/productService.js:3-7 | the store holds the seed records |
| ProductService.ProductService.GetAll | src/services/api/productService.js:38-41 | the whole table, in order |
| ProductService.ProductService.GetById | src/services/api/productService.js:43-50 | fails with "Product not found" exactly when no record has the Id, otherwise returns the first record that has it |
| ProductService.ProductService.GetByCategory | src/services/api/productService.js:52-55 | exactly the records of that category, each as often as stored, in store order |
| ProductService.ProductService.Search | src/services/api/productService.js:97-107 | when it does not throw, exactly the records whose lowercased name, description or category is a string containing the lowercased query, in store order; a TypeError exactly when, on some record, the first field the test reaches that is not a string comes before any match |
| ProductService.ProductService.Create | src/services/api/productService.js:57-66 | the product gets the next Id and is appended; every earlier record is unchanged |
| ProductService.ProductService.Update | src/services/api/productService.js:68-83 | a missing Id fails and changes nothing; otherwise only the found record is replaced, by the merge with its Id kept |
| ProductService.ProductService.Delete | src/services/api/productService.js:85-95 | a missing Id fails and changes nothing; otherwise the first matching record is returned and spliced out, the rest keep their order |
| QuoteService.Stamped | src/services/api/quoteService.js:58-62 | the new quote has the data's keys plus `Id` and `timestamp`, carries the Id and the time, and keeps every other property |
| QuoteService.QuoteService.constructor | src/services/api/quoteService.js:4-7 | the store holds the seed quotes |
| QuoteService.QuoteService.GetAll | src/services/api/quoteService.js:41-44 | the whole table, in order |
| QuoteService.QuoteService.GetById | src/services/api/quoteService.js:46-53 | fails with "Quote request not found" exactly when no quote has the Id, otherwise returns the first that has it |
| QuoteService.QuoteService.Create | src/services/api/quoteService.js:55-65 | the quote gets the next Id and the supplied time and is appended; earlier quotes are unchanged |
| QuoteService.QuoteService.Update | src/services/api/quoteService.js:67-82 | a missing Id fails and changes nothing; otherwise only that quote is replaced, by the merge with its Id kept |
| QuoteService.QuoteService.Delete | src/services/api/quoteService.js:84-94 | a missing Id fails and changes nothing; otherwise exactly the first matching quote is removed and returned |
| QuoteService.QuoteService.SubmitQuote | src/services/api/quoteService.js:96-98 | exactly the outcome of `create` on the same data |
| CertificationService.CertificationService.constructor | src/services/api/certificationService.js:4-7 | the store holds the seed certifications |
| CertificationService.CertificationService.GetAll | src/services/api/certificationService.js:29-32 | the whole table, in order |
| CertificationService.CertificationService.GetById | src/services/api/certificationService.js:34-41 | fails with "Certification not found" exactly when no record has the Id, otherwise returns the first that has it |
| CertificationService.CertificationService.Create | src/services/api/certificationService.js:43-52 | the certification gets the next Id and is appended; earlier records are unchanged |
| CertificationService.CertificationService.Update | src/services/api/certificationService.js:54-69 | a missing Id fails and changes nothing; otherwise only the found record is replaced, by the merge with its Id kept |
| CertificationService.CertificationService.Delete | src/services/api/certificationService.js:71-81 | a missing Id fails and changes nothing; otherwise exactly the first matching record is removed and returned, the rest keep their order |
| Sequences.FilterSelects | src/services/api/productService.js:54 | `filter` keeps exactly the elements its predicate accepts, as often as they occur, in their original order |
| Sequences.SelectsMembers | src/services/api/productService.js:54 | an element is in a selection exactly when it is in the source and accepted |
| Sequences.SelectsSome | src/components/organisms/ProductGrid.jsx:48-59 | some element of a selection has a property exactly when some accepted element of the source has it |
| Sequences.SubseqCounts | src/services/api/productService.js:54 | a subsequence takes each element at most as often as the whole |
| Sequences.SelectsUnique | src/services/api/productService.js:54 | exactly one subsequence has the kept elements with their counts: any selection equals `filter`'s result |
| Sequences.FilterKeepAll | src/components/organisms/ProductGrid.jsx:45 | filtering by a predicate true of every element returns the sequence unchanged |
| Sequences.FilterFilter | src/components/organisms/ProductGrid.jsx:48-60 | filtering twice is filtering once by the conjunction |
| Sequences.PrefixSubseq | src/components/organisms/ProductGrid.jsx:64 | a prefix taken by `slice(0, n)` is a subsequence |
| Sequences.SubseqTrans | src/components/organisms/ProductGrid.jsx:44-67 | a subsequence of a subsequence is a subsequence |
| Sequences.DedupSpec | src/components/pages/RequestQuote.jsx:159-160 | `[...new Set(xs)]` keeps every element, repeats none and keeps the order of first occurrences |
| JsString.TrimStart | src/components/molecules/ContactForm.jsx:38 | the leading half of `trim`; stated by `TrimStartSpec` |
| JsString.TrimEnd | src/components/molecules/ContactForm.jsx:38 | the trailing half of `trim`; stated by `TrimEndSpec` |
| JsString.Trim | src/components/molecules/ContactForm.jsx:38 | `trim`; stated by `TrimSpec` and `TrimEmptyIffBlank` |
| JsString.TrimStartSpec | src/components/molecules/ContactForm.jsx:38 | removes exactly a run of leading white space, stopping at the first other character |
| JsString.TrimEndSpec | src/components/molecules/ContactForm.jsx:38 | removes exactly a run of trailing white space, stopping at the last other character |
| JsString.TrimSpec | src/components/molecules/ContactForm.jsx:38 | a trimmed string is empty or starts and ends with a non-space, and occurs in the original |
| JsString.TrimEmptyIffBlank | src/components/molecules/ContactForm.jsx:38 | `!s.trim()` holds exactly when every character of s is white space |
| JsString.Lower | src/services/api/productService.js:99 | `toLowerCase` keeps the length and maps each character |
| JsString.LowerIdempotent | src/services/api/productService.js:99-104 | lowercasing an already lowercased string changes nothing, so the search need not lowercase twice |
| JsString.Contains | src/services/api/productService.js:102-104 | `includes`: some position of the text starts an occurrence of the needle |
| JsString.EmailPattern | src/components/molecules/ContactForm.jsx:44 | the executable email test; `EmailPatternIsRegex` proves it is the regular expression's match |
| JsString.EmailPatternIsRegex | src/components/molecules/ContactForm.jsx:44 | the executable test agrees, on every string, with the unanchored match of `\S+@\S+\.\S+` |
| JsString.NoAtSignNoEmail | src/components/molecules/ContactForm.jsx:44 | a string without '@' never passes the email test |
| JsString.ParseInt | src/components/pages/RequestQuote.jsx:136 | `parseInt(s, 10)`; stated by `ParseIntDecimal` and `ParseIntNaN` |
| JsString.DigitPrefix | src/components/pages/RequestQuote.jsx:136 | the longest run of leading decimal digits |
| JsString.ParseIntDecimal | src/components/pages/RequestQuote.jsx:136 | `parseInt(s, 10)` reads back the decimal rendering of any integer, with or without a minus sign |
| JsString.ParseIntNaN | src/components/pages/RequestQuote.jsx:136 | `parseInt` is NaN exactly when no digit follows the leading white space and the sign |
| FormRules.Required | src/components/pages/RequestQuote.jsx:89 | `if (!value.trim())` with its message; stated by `RequiredSpec` |
| FormRules.EmailError | src/components/molecules/ContactForm.jsx:42-46 | the two-branch email check; stated by `EmailErrorSpec` |
| FormRules.RequiredSpec | src/components/pages/RequestQuote.jsx:89 | a required field is reported exactly when blank, with that field's message |
| FormRules.EmailErrorSpec | src/components/pages/RequestQuote.jsx:90-91 | "Email is required" exactly when blank, "Email is invalid" exactly when not blank and no match of the pattern, no message exactly when it matches |
| FormRules.ClearError | src/components/pages/RequestQuote.jsx:68-73 | a shown message for that field is blanked, an absent one stays absent, every other field keeps its message |
| FormRules.Entry | src/components/pages/RequestQuote.jsx:89 | a check contributes an entry for its field exactly when it fails, holding its message |
| FormRules.Entries3 | src/components/pages/RequestQuote.jsx:88-93 | three checks on different fields report at most those fields, each exactly when its check fails |
| FormRules.NoAtSignRejected | src/components/molecules/ContactForm.jsx:44-45 | "not-an-email" is reported as invalid |
| FormRules.AddressAccepted | src/components/molecules/ContactForm.jsx:42-46 | "a@b.co" gets no message |
| RequestQuote.TextOr | src/components/pages/RequestQuote.jsx:26-27 | `v \|\| ''` for a text property: the string when it is one, otherwise empty |
| RequestQuote.FirstMaterial | src/components/pages/RequestQuote.jsx:31 | `materials?.[0] \|\| ''`: the first listed material, the first character of a string, otherwise empty |
| RequestQuote.InitialFormData | src/components/pages/RequestQuote.jsx:18-36 | every field starts empty except the category, the name and the material taken from the selected product |
| RequestQuote.NonEmpty | src/components/pages/RequestQuote.jsx:96-98 | a step 2 field is reported exactly when it is the empty string, with its message |
| RequestQuote.ContactErrors | src/components/pages/RequestQuote.jsx:88-93 | the step 1 messages; stated by `StepOneRequired`, `StepOneEmail` and `ContactErrorsReads` |
| RequestQuote.ProjectErrors | src/components/pages/RequestQuote.jsx:95-99 | the step 2 messages; stated by `StepTwoErrors`, `StepTwoMessages` and `ProjectErrorsReads` |
| RequestQuote.StepErrors | src/components/pages/RequestQuote.jsx:85-103 | `validateStep`'s message map; stated by the step lemmas and `OtherStepsPass`, and produced by `ValidateStep` |
| RequestQuote.CustomerInfo | src/components/pages/RequestQuote.jsx:127-132 | the request's customer object; stated by `PayloadCustomer` and `CustomerInfoFields` |
| RequestQuote.ProductLine | src/components/pages/RequestQuote.jsx:133-139 | the request's one product line; stated by `PayloadLine`, `PayloadQuantities` and `PayloadNotes` |
| RequestQuote.QuotePayload | src/components/pages/RequestQuote.jsx:126-143 | the `quoteData` object; stated by `PayloadKeys`, `PayloadLine`, `PayloadQuantities`, `PayloadNotes`, `PayloadCustomer` and `PayloadQuantity` |
| RequestQuote.CategoryColumn | src/components/pages/RequestQuote.jsx:159 | `products.map(p => p.category)`; the sequence whose first occurrences `CategoriesSpec` orders the chips by |
| RequestQuote.Categories | src/components/pages/RequestQuote.jsx:159 | the category chips; stated by `CategoriesSpec` |
| RequestQuote.MaterialsOf | src/components/pages/RequestQuote.jsx:160 | what `p.materials \|\| []` contributes to `flatMap`; used by `FlatMaterialsContains` |
| RequestQuote.FlatMaterials | src/components/pages/RequestQuote.jsx:160 | `flatMap` over the products; stated by `FlatMaterialsContains` |
| RequestQuote.MaterialOptions | src/components/pages/RequestQuote.jsx:160 | the material options; stated by `MaterialsSpec` |
| RequestQuote.ParsedNumber | src/components/pages/RequestQuote.jsx:136 | `parseInt` as a value: NaN when nothing is read, the number otherwise |
| RequestQuote.QuoteWizard.constructor | src/components/pages/RequestQuote.jsx:18-42 | the page opens at step 1 with the form prefilled from the selected product, which it keeps, no messages and no products |
| RequestQuote.QuoteWizard.LoadProducts | src/components/pages/RequestQuote.jsx:48-58 | the products are the product store's table; the form, the messages and the step are untouched |
| RequestQuote.QuoteWizard.HandleChange | src/components/pages/RequestQuote.jsx:60-74 | a contact input is changed only at step 1 and a project input only at step 2, the category never through an input; exactly the named field takes the value, and only that field's shown message is blanked |
| RequestQuote.QuoteWizard.HandleProductSelect | src/components/pages/RequestQuote.jsx:76-83 | the category, the name and the first material come from the product; nothing else changes |
| RequestQuote.QuoteWizard.SelectCategory | src/components/pages/RequestQuote.jsx:317-327 | the chips exist only at step 2 and only when no product was selected; a category chip sets the category field only |
| RequestQuote.QuoteWizard.ValidateStep | src/components/pages/RequestQuote.jsx:85-103 | the step's messages replace the old ones wholesale, and the step passes exactly when there are none |
| RequestQuote.QuoteWizard.HandleNext | src/components/pages/RequestQuote.jsx:105-109 | run from step 1, where its button is: step 2 exactly when the contact details validate, otherwise step 1 |
| RequestQuote.QuoteWizard.HandlePrevious | src/components/pages/RequestQuote.jsx:111-113 | run from step 2, where its button is: back to step 1 without validating; form and messages are untouched |
| RequestQuote.QuoteWizard.HandleSubmit | src/components/pages/RequestQuote.jsx:115-157 | run from step 2: nothing is sent and the step stays when step 2 fails; otherwise the composed request is recorded by the quote store and step 3 is shown; step 3 is reached exactly when the store grew by one; a recorded request passed both the step-1 and the step-2 checks |
| RequestQuote.QuoteWizard.SubmitForm | src/components/pages/RequestQuote.jsx:224 | the form's submit event: `handleSubmit` at step 2, and at step 1 nothing changes and nothing is sent |
| RequestQuote.StepOneRequired | src/components/pages/RequestQuote.jsx:88-93 | step 1 reports only contact fields, a name exactly when blank and a company exactly when blank, with their messages |
| RequestQuote.StepOneEmail | src/components/pages/RequestQuote.jsx:90-91 | the email of step 1 is "required" exactly when blank, "invalid" exactly when not blank and no pattern match, and passes exactly when it matches |
| RequestQuote.StepTwoErrors | src/components/pages/RequestQuote.jsx:95-99 | step 2 reports only project fields, each exactly when it is empty, without trimming |
| RequestQuote.StepTwoMessages | src/components/pages/RequestQuote.jsx:96-98 | the messages of step 2 |
| RequestQuote.OtherStepsPass | src/components/pages/RequestQuote.jsx:85-103 | any step number other than 1 and 2 validates with no message |
| RequestQuote.ContactErrorsReads | src/components/pages/RequestQuote.jsx:88-93 | step 1 depends on the name, the email and the company only |
| RequestQuote.ProjectErrorsReads | src/components/pages/RequestQuote.jsx:95-99 | step 2 depends on the category, the quantity and the timeline only |
| RequestQuote.PhoneNeverReported | src/components/pages/RequestQuote.jsx:85-103 | the phone never gets a message |
| RequestQuote.PhoneNeverChecked | src/components/pages/RequestQuote.jsx:85-103 | the phone's value never changes any message |
| RequestQuote.SpaceIsAValueOnlyAtStepTwo | src/components/pages/RequestQuote.jsx:89-97 | a single space is a quantity at step 2 but a missing name at step 1 |
| RequestQuote.InitialFormFailsStepOne | src/components/pages/RequestQuote.jsx:18-36 | the freshly opened page reports the name, the email and the company at step 1, whatever the selected product |
| RequestQuote.InitialFormFailsStepTwo | src/components/pages/RequestQuote.jsx:18-36 | without a selected product it also reports the category, the quantity and the timeline at step 2 |
| RequestQuote.PayloadKeys | src/components/pages/RequestQuote.jsx:126-143 | the request holds exactly the customer, the products, the notes, the timeline and the quantity |
| RequestQuote.PayloadQuantities | src/components/pages/RequestQuote.jsx:133-142 | one product line, whose quantity equals the request's, both `parseInt` of the quantity field |
| RequestQuote.PayloadLine | src/components/pages/RequestQuote.jsx:133-142 | the line carries the category, the product name and the material as entered, and the request carries the chosen timeline |
| RequestQuote.PayloadNotes | src/components/pages/RequestQuote.jsx:137-140 | the request's specifications are the additional notes, the line's are the specifications field |
| RequestQuote.PayloadCustomer | src/components/pages/RequestQuote.jsx:127-132 | the customer object has exactly name, email, phone and company |
| RequestQuote.CustomerInfoFields | src/components/pages/RequestQuote.jsx:127-132 | the customer object repeats the four contact fields as typed |
| RequestQuote.PayloadQuantity | src/components/pages/RequestQuote.jsx:142 | a quantity typed as a decimal number arrives as that number, one starting with a letter as NaN |
| RequestQuote.CategoriesSpec | src/components/pages/RequestQuote.jsx:159 | the category list has no repeats, holds exactly the categories the products carry, and lists them in the order of their first occurrence |
| RequestQuote.MaterialsSpec | src/components/pages/RequestQuote.jsx:160 | the material list has no repeats, holds every material of every product, and holds nothing that is not some product's material |
| RequestQuote.FlatMaterialsFrom | src/components/pages/RequestQuote.jsx:160 | every item of the `flatMap` comes from some product's materials |
| RequestQuote.FlatMaterialsContains | src/components/pages/RequestQuote.jsx:160 | `flatMap` keeps every material of every product |
| ProductGrid.FilterProducts | src/components/organisms/ProductGrid.jsx:44-68 | `filterProducts`; stated by `FilterProductsKeeps`, `FilterProductsFails`, `FilterProductsSubseq`, `FilterProductsLimit` and `FilterProductsIdentity` |
| ProductGrid.ShowViewAll | src/components/organisms/ProductGrid.jsx:233 | the "View All" condition; stated by `ViewAllWhenTruncated` |
| ProductGrid.Truncate | src/components/organisms/ProductGrid.jsx:64 | `slice(0, n)` is a prefix, of length n capped by the length, or counted from the back for a negative n |
| ProductGrid.GridKeep | src/components/organisms/ProductGrid.jsx:48-60 | a product is kept when it passes the category filter and, for a non-empty query, the text search |
| ProductGrid.FilterCongruent | src/components/organisms/ProductGrid.jsx:48-60 | filters by predicates that agree everywhere give the same products |
| ProductGrid.FilteredKeeps | src/components/organisms/ProductGrid.jsx:45-60 | when the search does not throw, the two filters together keep exactly the products both accept |
| ProductGrid.FilterProductsKeeps | src/components/organisms/ProductGrid.jsx:44-68 | a successful pipeline returns the limited prefix of exactly the products both filters keep, in order |
| ProductGrid.FilterProductsFails | src/components/organisms/ProductGrid.jsx:53-60 | the pipeline fails exactly when the query is not empty and, on some product passing the category filter, the first field the test reaches that is not a string comes before any match |
| ProductGrid.FilterProductsSubseq | src/components/organisms/ProductGrid.jsx:44-67 | every result is an order-preserving subsequence of the products |
| ProductGrid.FilterProductsLimit | src/components/organisms/ProductGrid.jsx:63-65 | a positive limit bounds the number of products shown |
| ProductGrid.FilterProductsIdentity | src/components/organisms/ProductGrid.jsx:44-67 | the category "all", an empty query and no limit show every product |
| ProductGrid.ViewAllWhenTruncated | src/components/organisms/ProductGrid.jsx:233 | for a positive limit, "View All" appears exactly when the unfiltered grid leaves products out |
| ContactForm.FormErrors | src/components/molecules/ContactForm.jsx:35-51 | `validateForm`'s message map; stated by `FormErrorsRequired`, `FormErrorsEmail` and `FormErrorsReads`, and produced by `ValidateForm` |
| ContactForm.ContactForm.constructor | src/components/molecules/ContactForm.jsx:8-17 | the form opens with all six fields empty and no messages |
| ContactForm.ContactForm.HandleChange | src/components/molecules/ContactForm.jsx:19-33 | exactly the named field takes the value, and only that field's shown message is blanked |
| ContactForm.ContactForm.ValidateForm | src/components/molecules/ContactForm.jsx:35-54 | the messages replace the old ones wholesale, the form is untouched, and it is valid exactly when there are none |
| ContactForm.ContactForm.HandleSubmit | src/components/molecules/ContactForm.jsx:56-91 | an invalid form is neither sent nor cleared; a valid one is handed to the callback if there is one, then cleared unless the callback fails |
| ContactForm.FormErrorsRequired | src/components/molecules/ContactForm.jsx:38-50 | only name, email and message are reported; the name and the message each exactly when blank, with their messages |
| ContactForm.FormErrorsEmail | src/components/molecules/ContactForm.jsx:42-46 | the email is "required" exactly when blank, "invalid" exactly when not blank and no pattern match, and passes exactly when it matches |
| ContactForm.FormErrorsReads | src/components/molecules/ContactForm.jsx:35-54 | validation depends on the name, the email and the message only |
| ContactForm.UnvalidatedFields | src/components/molecules/ContactForm.jsx:35-54 | phone, company and subject never get a message and never change one |
| ContactForm.EmptyFormFails | src/components/molecules/ContactForm.jsx:77-84 | the cleared form reports the name, the email and the message, so submitting it again sends nothing |

## Left out

- `loadMockData` in each store fetches a JSON fixture with a fallback. The seed is a constructor parameter instead.
- The simulated latency (`delay`, the one-second wait in the contact form) and the interleaving of unawaited calls are not modelled. Every operation is atomic.
- Rendering is not modelled: animations, toasts, navigation and the loading flags.
- React state updates are taken to apply at once. A handler reads the state the previous handler left.
- `parseInt` of string Ids in the stores is not modelled: Ids are passed as integers.
- The returned records are shallow copies in the source. Values have no identity in the model, so that aliasing is not modelled.
- `ProductService.ProductService.GetAll`: the list comes from the seeded store. The wizard's `loadProducts` has a failure path for a rejected `getAll` that only logs. The in-memory store cannot reject, so that path is not modelled.
- `RequestQuote.QuoteWizard.HandleSubmit`: the failure path (a generic error toast, the step kept) is not modelled, because the in-memory `submitQuote` cannot fail.
- `RequestQuote.QuoteWizard.HandleChange`: only the wizard's text inputs are modelled. The file input for drawings (`files[0]`) and change events for names outside the form are left out.
- `RequestQuote.QuoteWizard.HandleProductSelect`: a product whose category or name is not a string puts "" in the field. The source copies the raw value. For a falsy value (`undefined`, `null`, `0`, `NaN`) step 2 reports the category as missing in both. For a truthy non-string value, such as the number `3`, the source's `!formData.productCategory` reports nothing and the request sends `3`, while the model reports "Product category is required". The same holds for a truthy first material that is not a string (see `RequestQuote.FirstMaterial`). The function has no caller in the page.
- `RequestQuote.TextOr`: `v || ''` keeps a truthy value that is not a string, such as the number `3` or an object. The model gives "" for it, since the form's fields are strings (see the two lines below).
- `RequestQuote.InitialFormData`: a selected product whose category, name or first material is a truthy non-string value starts that field as "". The source keeps that value.
- `RequestQuote.FirstMaterial`: a truthy first material that is not a string, such as the number `304` or an object, gives "". The source's `materials?.[0] || ''` keeps it, so the request's `materials` would then carry that value where the model sends "".
- `RequestQuote.QuoteWizard.SubmitForm`: the browser's own form validation is not modelled. The `Input` atom does not pass `required` on to its `<input>`, so in the wizard only the timeline `<select required>` is natively required, and a `type="number"` input hands over "" for text that is not a number. An empty timeline stops the submit event before the handler runs, and the page shows the browser's prompt where the model sets "Timeline is required". The handler refuses such a form too, so the page and the model send the same requests and show the same step. The model's quantity is any string, including text a number input would not hand over.
- `ContactForm.ContactForm.HandleSubmit`: the browser's `type="email"` check on the email input is not modelled, and it is stricter than the handler's unanchored `\S+@\S+\.\S+`. An address the regular expression accepts but the browser rejects, such as "x y@a.b", "<a@b.co>" or "a@b.co x", is delivered and the form cleared in the model, while the page neither sends nor clears it. An address the regular expression rejects is refused by both.
- `RequestQuote.CategoriesSpec` and `RequestQuote.MaterialsSpec`: `new Set` compares objects and arrays by identity. The model compares them by value, so two equal but distinct material objects count once.
- The record values modelled are `null`, integers, `NaN`, strings, arrays and objects. Booleans, non-integer numbers and properties explicitly set to `undefined` are not modelled. An absent property stands for `undefined`.
- `JsString.Lower`: `toLowerCase` maps ASCII letters only; the Unicode case mapping is not modelled.
- `EntityTable.MaxId`: Ids are unbounded integers. In JavaScript they are doubles, exact only up to 2^53, and from there the maximum no longer yields a fresh Id (see `EntityTable.NextId`). The model does not show that.
- `EntityTable.NextId`: from 2^53 on, JavaScript's `maxId + 1` equals `maxId`, so `create` would issue an Id already present. The model's unbounded `NextId` is always greater than every Id, which holds only below 2^53.
- `JsString.ParseIntDecimal`: numbers are unbounded integers. Quantities beyond 2^53 lose precision in JavaScript, and the model does not show that.
- The certification card's date comparison and formatting are not part of this model. Nor are the routes, the layout components and the content pages.
