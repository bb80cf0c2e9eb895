# A verified model of the Plug-in form engine

Plug-in is a React form engine. It renders entity pages (contacts, customers)
from a configuration: a web layout of sections, each holding attributes, with
table sections, reference fields and custom attributes. This project models
the engine's logic in Dafny and proves what that logic promises:

- **The attribute and record model** (`attribute_utils.dfy`,
  `config_data_converter.dfy`):
  - how a value is read from and written to the form record, including table rows;
  - the flag checks and the attribute and section type checks;
  - per-attribute validation;
  - the layout searches;
  - the conversion of raw configuration data into attribute and section maps.
- **The initialisation sequence** (`ui_renderer_init.dfy` with `init_indexes.dfy`,
  `section_filter.dfy`, `layout_upgrade.dfy` and `custom_attributes.dfy`). The
  `Session` class holds the `uiOptions` state and runs it step by step:
  - mode normalisation;
  - the index maps of sections, attributes and dependencies;
  - section filtering and the layout upgrade;
  - the formatting of custom-attribute values and table rows.
- **The services**:
  - field rendering (`field_renderer_service.dfy`);
  - form validation (`validation_service.dfy`);
  - the advanced-search renderer and its request payloads
    (`advanced_search_renderer.dfy`, `advanced_search_api.dfy`);
  - the contact-save payload (`contact_save_api.dfy`);
  - the helpers of the API base class (`base_api.dfy`).
- **The field components' value logic**: text, number, percentage, phone,
  phone/e-mail lists, address, checkbox, tags, time and file upload, with the
  shared helpers in `field_utils.dfy`. `TextField.IsDisabled` defines the rule
  for when a field is disabled, and the other fields use that definition.

JavaScript values are modelled by `JsValues.Value`:
`undefined`, `null`, booleans, numbers as reals, strings, arrays and objects.
Truthiness, `||`, optional chaining and property access are written out there.
The helpers for strings, sequences and keyed folds are in `js_text.dfy`,
`seqs.dfy` and `keyed_folds.dfy`.

Some inputs are host behaviour: the key order of `Object.keys` or `for … in`,
`parseFloat` and the `URL` constructor. The model takes these as parameters.

## Model

| member | source | states |
|---|---|---|
| AddressField.InitialAddress | src/shared/components/fields/AddressField.jsx:18-24 | an object value is taken as the address; a falsy value gives all five fields `''` |
| AddressField.FieldChangeSpec | src/shared/components/fields/AddressField.jsx:42-53 | a change sets exactly the named field to the new value and keeps every other field; the country callback fires iff the field is `country` and a callback exists, and then carries the new value |
| AddressField.CurrentStatesSpec | src/shared/components/fields/AddressField.jsx:34-40 | with a country and a callback, the shown states are the states in order whose `countryId` is that country, each with its multiplicity; otherwise the current list stays |
| AddressField.Fields | src/shared/components/fields/AddressField.jsx:62-68 | the five parts, street, city, state, zip code, country, in that order |
| AddressField.ViewText | src/shared/components/fields/AddressField.jsx:68-72 | the placeholder dash (`None`) is shown iff every one of the five parts is falsy |
| AddressField.ViewTextBlankIsAbsent | src/shared/components/fields/AddressField.jsx:62-72 | a field holding any falsy value (`''`, `null`, `undefined`, `0`) gives the same view text as the record without that field |
| AddressField.ViewTextSingle | src/shared/components/fields/AddressField.jsx:62-72 | with exactly one field filled in, view mode shows that field's text alone, with no separator |
| AddressField.ViewTextFull | src/shared/components/fields/AddressField.jsx:62-72 | a full address shows as `street, city, state, zipCode, country` |
| CheckboxField.HandleChange | src/shared/components/fields/CheckboxField.jsx:18-35 | without options the emitted value is the checked flag; with options it is a list |
| CheckboxField.CheckAppends | src/shared/components/fields/CheckboxField.jsx:20-25 | checking appends the option value after the current values (a non-array counts as `[]`), even when already present |
| CheckboxField.UncheckRemovesAll | src/shared/components/fields/CheckboxField.jsx:26-28 | unchecking keeps the other values in order with their multiplicities and removes every occurrence of the option value |
| CheckboxField.CheckThenUncheck | src/shared/components/fields/CheckboxField.jsx:20-28 | checking then unchecking a value that was absent restores the list |
| CheckboxField.SelectedOptions | src/shared/components/fields/CheckboxField.jsx:38-42 | every shown option's value (`value \|\| id`) is in the array value |
| CheckboxField.SelectedOptionsSpec | src/shared/components/fields/CheckboxField.jsx:38-42 | the shown options are the options in order whose value is in the array value; none when the value is not an array |
| FileUploadField.InitialFiles | src/shared/components/fields/FileUploadField.jsx:18 | the initial list is the value when truthy, else `[]` |
| FileUploadField.FileChangeSpec | src/shared/components/fields/FileUploadField.jsx:20-28 | with `multiple` the new files follow the existing ones unchanged; otherwise they replace them |
| FileUploadField.HandleRemoveFile | src/shared/components/fields/FileUploadField.jsx:30-36 | removal drops exactly the given index and keeps the rest in order; an index out of range changes nothing |
| FileUploadField.RemoveUndoesAdd | src/shared/components/fields/FileUploadField.jsx:20-36 | appending one file and removing it again restores the list |
| NumberField.Clamp | src/shared/components/fields/NumberField.jsx:26-33 | with `min <= max` the result lies in the bounds; a value within the bounds is kept; the result never exceeds `max`; with crossed bounds a value below `min` ends at `max` |
| NumberField.HandleChange | src/shared/components/fields/NumberField.jsx:21-38 | `null` is emitted iff the input is empty (never 0); NaN iff the input is non-empty and does not parse |
| NumberField.ChangeInRange | src/shared/components/fields/NumberField.jsx:23-33 | with `min <= max` every emitted number lies in `[min, max]`, and a parsed number already in range is emitted as it is |
| NumberField.DisplayValue | src/shared/components/fields/NumberField.jsx:40 | the display value is `''` exactly for `null`/`undefined`, else the value |
| PercentageField.HandleChange | src/shared/components/fields/PercentageField.jsx:16-29 | every emitted number lies in `[0, 100]`; `null` is emitted iff the input is empty |
| PercentageField.SameAsNumberField | src/shared/components/fields/PercentageField.jsx:16-29 | the change handler is the number field's with bounds 0 and 100 |
| PercentageField.ViewText | src/shared/components/fields/PercentageField.jsx:31-37 | view mode shows the value followed by `%`, or the dash for `null`, `undefined` and `''` |
| PhoneField.ChangeKeepsDigits | src/shared/components/fields/PhoneField.jsx:18-23 | the emitted value holds only digits, is a subsequence of the input, and keeps every digit of the input with its multiplicity |
| PhoneField.Digits | src/shared/components/fields/PhoneField.jsx:19 | stripping non-digits leaves only digits |
| PhoneField.FormatPhone | src/shared/components/fields/PhoneField.jsx:25-31 | an empty phone formats as `''`; up to three digits are returned bare |
| PhoneField.FormatPhoneDigits | src/shared/components/fields/PhoneField.jsx:25-31 | the digits of the formatted phone are the first `min(10, n)` digits of the input: nothing is lost up to ten digits and the rest is dropped |
| PhoneField.ShortPatternDigits | src/shared/components/fields/PhoneField.jsx:29 | the `(abc) def` pattern holds exactly the digits put into it |
| PhoneField.LongPatternDigits | src/shared/components/fields/PhoneField.jsx:30 | the `(abc) def-ghij` pattern holds exactly the digits put into it |
| PhoneField.FormatPhoneIdempotent | src/shared/components/fields/PhoneField.jsx:25-31 | formatting a formatted phone changes nothing |
| PhoneEmailField.SetEntry | src/shared/components/fields/PhoneEmailField.jsx:21-26 | the copied list grows to cover the index; other entries are unchanged; a missing or falsy entry becomes an object; the written properties are set and the entry's other properties kept |
| PhoneEmailField.PhoneChangeSpec | src/shared/components/fields/PhoneEmailField.jsx:20-31 | a phone change sets `phoneNumber` and `phoneType` at the index, creating the entry when absent, and leaves the other indices untouched |
| PhoneEmailField.EmailChangeSpec | src/shared/components/fields/PhoneEmailField.jsx:33-43 | an email change sets `emailAddress` at the index, creating the entry when absent, and leaves the other indices untouched |
| PhoneEmailField.RemoveUndoesAdd | src/shared/components/fields/PhoneEmailField.jsx:45-75 | removing the entry just added restores the list |
| PhoneEmailField.PhoneEmailState.constructor | src/shared/components/fields/PhoneEmailField.jsx:17-18 | the two lists start as `value?.phoneNumbers` and `value?.emailAddresses`, or `[]` |
| PhoneEmailField.PhoneEmailState.HandlePhoneChange | src/shared/components/fields/PhoneEmailField.jsx:20-31 | the phone list becomes the written copy, the email list is unchanged, and both lists are emitted |
| PhoneEmailField.PhoneEmailState.HandleEmailChange | src/shared/components/fields/PhoneEmailField.jsx:33-43 | the email list becomes the written copy, the phone list is unchanged, and both lists are emitted |
| PhoneEmailField.PhoneEmailState.AddPhone | src/shared/components/fields/PhoneEmailField.jsx:45-51 | appends `{phoneNumber: '', phoneType: 'mobile'}`; the emails are unchanged and both lists are emitted |
| PhoneEmailField.PhoneEmailState.AddEmail | src/shared/components/fields/PhoneEmailField.jsx:53-59 | appends `{emailAddress: ''}`; the phones are unchanged and both lists are emitted |
| PhoneEmailField.PhoneEmailState.RemovePhone | src/shared/components/fields/PhoneEmailField.jsx:61-67 | drops exactly the given index from the phones; the emails are unchanged and both lists are emitted |
| PhoneEmailField.PhoneEmailState.RemoveEmail | src/shared/components/fields/PhoneEmailField.jsx:69-75 | drops exactly the given index from the emails; the phones are unchanged and both lists are emitted |
| TextField.ChangeLength | src/shared/components/fields/TextField.jsx:25-46 | the emitted value is a prefix of filter-then-convert of the input; without `maxLength` it is all of it; a positive `maxLength` caps its length; a negative one cuts that many characters from the end, as `slice` does |
| TextField.ChangeKeepsRule | src/shared/components/fields/TextField.jsx:28-31 | with an active data-type rule, every emitted character is one the rule allows, whatever the case conversion and truncation do afterwards |
| TextField.FilterBeforeConversion | src/shared/components/fields/TextField.jsx:28-36 | the order matters: filtering `_a` for letters and then title-casing gives `A`, while the reverse order gives `a` |
| TextField.AlphabetExample | src/shared/components/fields/TextField.jsx:29-30 | the letter filter turns `_a` into `a` |
| TextField.TitleExample | src/shared/components/fields/TextField.jsx:34-35 | title case turns `a` into `A` and leaves `_a` unchanged, since `_` starts the word |
| TextField.ProcessIdempotent | src/shared/components/fields/TextField.jsx:28-36 | filter-then-convert applied twice equals applying it once |
| TextField.HandlePaste | src/shared/components/fields/TextField.jsx:71 | a paste emits only a value that differs from the pasted text |
| TextField.PasteSettles | src/shared/components/fields/TextField.jsx:55-75 | a paste emits nothing iff filter-then-convert leaves the pasted text unchanged; without `maxLength` it emits what a change would; pasting the emitted value again emits nothing |
| TextField.KeyPressAgreesWithChange | src/shared/components/fields/TextField.jsx:48-53 | a single typed character is blocked iff the change handler's filter would remove it |
| TimeField.FormatTime | src/shared/components/fields/TimeField.jsx:22-35 | a falsy value gives `null`; a non-string, or a string without `:`, is returned unchanged |
| TimeField.FormatTimeSpec | src/shared/components/fields/TimeField.jsx:25-29 | `"HH:MM..."` shows as `(H mod 12, or 12 when that is 0):MM` followed by `AM` iff H < 12, else `PM`; the minutes are carried over unchanged |
| TimeField.TwelveHourOf | src/shared/components/fields/TimeField.jsx:26-29 | the string built from the split parts is that 12-hour display |
| TimeField.HourRange | src/shared/components/fields/TimeField.jsx:27-28 | for a non-negative hour the shown hour lies in 1..12 and `PM` is shown iff the hour is at least 12; an unparseable hour (NaN) shows `12` and `AM` |
| TimeField.Rem | src/shared/components/fields/TimeField.jsx:27 | JavaScript's `%`: the Euclidean remainder for a non-negative left operand, and always strictly between `-b` and `b` |
| TimeField.ColonAt | src/shared/components/fields/TimeField.jsx:26 | the position of the first `:`, or the length when there is none |
| TimeField.InputValue | src/shared/components/fields/TimeField.jsx:45-50 | a falsy value shows as `''`; a string containing `:` shows as its first five characters |
| TagsField.NormalizeValue | src/shared/components/fields/TagsField.jsx:21-28 | `null`/`undefined` give `null`; an object gives `null` or a truthy property; any other value is unchanged; never `undefined` |
| TagsField.NormalizeEach | src/shared/components/fields/TagsField.jsx:33 | the `map` step: each entry normalised, position by position |
| TagsField.NormalizeValues | src/shared/components/fields/TagsField.jsx:30-34 | a falsy input gives `[]`; no entry of the result is `null` or `undefined` |
| TagsField.NormalizeValuesOrder | src/shared/components/fields/TagsField.jsx:30-34 | the result is the normalised entries in order with the nulls dropped; a list of plain values is returned as it is |
| TagsField.PlainUnchanged | src/shared/components/fields/TagsField.jsx:27-33 | normalising a list of plain values returns the list |
| TagsField.HandleAddTag | src/shared/components/fields/TagsField.jsx:63-75 | a change is emitted iff the normalised value is not `null` and not already selected |
| TagsField.AddTagAppends | src/shared/components/fields/TagsField.jsx:63-75 | the emitted list is the selected values with the normalised value appended; adding a selected value emits nothing; adding keeps a duplicate-free list duplicate-free |
| TagsField.HandleRemoveTag | src/shared/components/fields/TagsField.jsx:77-86 | no emitted entry normalises to the removed tag |
| TagsField.RemoveTagDropsAll | src/shared/components/fields/TagsField.jsx:77-86 | removal keeps the other selected values in order with their multiplicities and drops every entry equal, once normalised, to the tag |
| TagsField.AddThenRemove | src/shared/components/fields/TagsField.jsx:63-86 | adding a new plain tag appends it, and removing it again restores the list |
| TagsField.RemoveJustAdded | src/shared/components/fields/TagsField.jsx:77-86 | removing the last-added plain tag restores the earlier list |
| TagsField.EnterAddsTrimmed | src/shared/components/fields/TagsField.jsx:88-93 | Enter emits iff the trimmed input is non-blank and not yet selected, and then appends the trimmed text as a literal tag |
| TagsField.OptionLabel | src/shared/components/fields/TagsField.jsx:96-97 | the label is missing (a `TypeError` on `null.id`) exactly when the option is nullish or its first truthy label property is `null` |
| TagsField.FilteredOptions | src/shared/components/fields/TagsField.jsx:95-101 | the filter throws exactly when some option's label read throws |
| TagsField.FilteredOptionsSpec | src/shared/components/fields/TagsField.jsx:37-101 | the filtered options are the field options in order whose label contains the input case-insensitively and whose value is not selected, each with its multiplicity |
| FieldUtils.TitleCase | src/shared/components/fields/fieldUtils.js:17-20 | title case keeps the length of the text |
| FieldUtils.TitleCaseChars | src/shared/components/fields/fieldUtils.js:17-20 | each character is upper-cased where a `\w\S*` match starts, lower-cased inside a match, and left alone outside every match |
| FieldUtils.TitleCaseIdempotent | src/shared/components/fields/fieldUtils.js:17-20 | title-casing twice equals title-casing once |
| FieldUtils.ApplyCaseConversion | src/shared/components/fields/fieldUtils.js:9-25 | the length is kept; empty text, a missing type or an unknown type returns the text unchanged |
| FieldUtils.CaseConversionSpec | src/shared/components/fields/fieldUtils.js:13-16 | `UPPERCASE` leaves no lower-case letter and `lowercase` no upper-case one; each is idempotent |
| FieldUtils.ConversionIdempotent | src/shared/components/fields/fieldUtils.js:9-25 | every case conversion applied twice equals applying it once |
| FieldUtils.ConversionKeepsAllowed | src/shared/components/fields/fieldUtils.js:9-45 | converting the case of text that a data-type rule allows gives text the rule still allows |
| FieldUtils.Keep | src/shared/components/fields/fieldUtils.js:37-45 | every character the filter keeps is one the rule allows: digits, `.` and `-` for NUMBER; letters and white space for ALPHABET; letters, digits and white space for ALPHANUMERIC |
| FieldUtils.KeepSubseq | src/shared/components/fields/fieldUtils.js:37-45 | the filtered text is a subsequence of the input |
| FieldUtils.KeepCounts | src/shared/components/fields/fieldUtils.js:37-45 | every allowed character keeps its count and every other character is removed |
| FieldUtils.KeepFixed | src/shared/components/fields/fieldUtils.js:37-45 | text made only of allowed characters is unchanged |
| FieldUtils.ValidateDataTypeIdempotent | src/shared/components/fields/fieldUtils.js:30-49 | `validateDataType` applied twice equals applying it once |
| FieldUtils.KeyPressMatchesFilter | src/shared/components/fields/fieldUtils.js:54-89 | a key name longer than one character is never blocked, nor is any key when the rule is off or untyped; with an active rule, a single character is blocked iff `validateDataType` would remove it |
| FieldRendererService.GetFieldComponent | src/shared/services/fieldRendererService.js:109-141 | the lookup gives no component (`null`) iff there is no attribute: every attribute gets a component |
| FieldRendererService.ComponentPrecedence | src/shared/services/fieldRendererService.js:114-140 | a Currency display type selects the currency field whatever the tags; then a registered `right[0].tag`; then a registered own tag `attributeTag \|\| tag \|\| type`; then the formula field when `formulaType` is set, else the text field |
| FieldRendererService.TagSelects | src/shared/services/fieldRendererService.js:124-132 | an attribute decided by its own tag gets that tag's component from the map of lines 52-68: `select_search` and `tags` the tags field, `check` and `checkbox` the checkbox field |
| FieldRendererService.RenderProps | src/shared/services/fieldRendererService.js:152-173 | the props are built iff there is an attribute |
| FieldRendererService.PropsDefaults | src/shared/services/fieldRendererService.js:160-168 | `disabled` and `className` are always set; a key the caller passes wins even when falsy; otherwise `disabled` follows `disableField` and `className` is `''`; every other caller key is passed through |
| FieldRendererService.PropsOptions | src/shared/services/fieldRendererService.js:170-173 | a select, checkbox, radio, multi-select or tags field always gets a truthy option list: the caller's, else the attribute's, else `right[0]`'s, else `[]`; other components get `options` only from the caller |
| AdvancedSearchRenderer.FlatAttributes | src/components/AdvancedSearchRenderer/AdvancedSearchRenderer.jsx:87-88 | an attribute is in the flattened list iff it belongs to one of the top-level sections |
| AdvancedSearchRenderer.FindTagged | src/components/AdvancedSearchRenderer/AdvancedSearchRenderer.jsx:89 | `find`: nothing iff no attribute has the key as its `tagName` or `right[0].tagName`; otherwise the first such attribute |
| AdvancedSearchRenderer.BuildSearchCriteria | src/components/AdvancedSearchRenderer/AdvancedSearchRenderer.jsx:79-102 | the loop over the keys yields exactly the criteria of the keys in order |
| AdvancedSearchRenderer.CriterionForSpec | src/components/AdvancedSearchRenderer/AdvancedSearchRenderer.jsx:84-97 | a key gives a criterion iff its value is not `undefined`, `null` or `''` and some top-level attribute carries the key as a tag name; the criterion uses the first such attribute, `attributeId \|\| key`, operator `equals` and the value |
| AdvancedSearchRenderer.CriteriaSpec | src/components/AdvancedSearchRenderer/AdvancedSearchRenderer.jsx:83-99 | criteria follow key order (the list for a concatenation of keys is the concatenation), never outnumber the keys, all use `equals`, and are exactly the criteria of some key |
| AdvancedSearchRenderer.ResetSearchesNothing | src/components/AdvancedSearchRenderer/AdvancedSearchRenderer.jsx:125-131 | after a reset the form data is `{}`, so no key gives a criterion |
| ContactSaveApi.BuildCustomAttributes | src/services/api/contact-save-api-service.js:71-95 | the loop over the keys yields exactly the entries of the keys in order |
| ContactSaveApi.CustomAttributesSpec | src/services/api/contact-save-api-service.js:76-92 | entries follow key order and never outnumber the keys; an entry is present iff some key is not a standard field, its value is not `undefined`, `null` or `''`, and the entry is the one built from that key |
| ContactSaveApi.EntryFields | src/services/api/contact-save-api-service.js:85-90 | an entry carries its value under `customAttributeValue` and under its own key, and the key under `customAttributeTagName` and `customAttributeName` unless the key is that very name |
| ContactSaveApi.NothingToAdd | src/services/api/contact-save-api-service.js:76-92 | a form holding only standard fields or empty values has no custom attributes |
| ContactSaveApi.SingleKey | src/services/api/contact-save-api-service.js:83-90 | one filled-in non-standard key gives exactly its entry |
| ContactSaveApi.TagNameOverridden | src/services/api/contact-save-api-service.js:85-89 | the computed `[key]` property comes last: a key `customAttributeTagName` holding `'firstName'` gives an entry tagged `firstName` |
| ContactSaveApi.StandardNotCustom | src/services/api/contact-save-api-service.js:78-90 | unless the form has a key `customAttributeTagName`, no entry is tagged with a standard field's name |
| ContactSaveApi.Default | src/services/api/contact-save-api-service.js:54-62 | a default is `''` or `[]` |
| ContactSaveApi.DefaultsSpec | src/services/api/contact-save-api-service.js:54-62 | the five text fields default to `''` and the four lists to `[]` |
| ContactSaveApi.ContactDataSpec | src/services/api/contact-save-api-service.js:50-66 | the payload holds exactly the nine standard fields and `customAttributes`; each standard field is the form's value when truthy, else its default, so never `undefined` or `null`; `customAttributes` is the built list |
| BaseApi.ErrorPrecedence | src/services/api/base-api-service.js:21-35 | a reply gives its `data.message`, else its `data.error`, else `API error: <status> <statusText>`; a request without a reply gives the fixed message; any other error is thrown again as it is |
| BaseApi.ReplyBecomesError | src/services/api/base-api-service.js:24-29 | an error with a reply always becomes a fresh `Error` |
| BaseApi.ExtractData | src/services/api/base-api-service.js:113-122 | the result is `[]` or one of `data`, `documents` and the response itself |
| BaseApi.ExtractDataSpec | src/services/api/base-api-service.js:113-122 | an array response is returned as it is; a `data` array wins; otherwise a `documents` array; with neither, an object gives `[]` |
| BaseApi.ArrayHasNoFields | src/services/api/base-api-service.js:114-118 | an array response has no `data` or `documents` property, so the third branch decides it |
| BaseApi.ExtractDataIdempotent | src/services/api/base-api-service.js:113-122 | extracting from an extracted list gives the same list |
| BaseApi.GetInitials | src/services/api/base-api-service.js:124-131 | the result fails (`TypeError` on `trim`) iff the name is truthy but not a string; otherwise it has at most two characters and no lower-case letter |
| BaseApi.WordInitials | src/services/api/base-api-service.js:126-129 | with two or more words the initials are exactly two characters, upper-cased, never white space |
| BaseApi.FirstTwo | src/services/api/base-api-service.js:130 | at most two characters, upper-cased |
| BaseApi.InitialsOfTwoWords | src/services/api/base-api-service.js:126-129 | `"w1 w2"` gives the upper-cased first letters of both words |
| BaseApi.InitialsOfOneWord | src/services/api/base-api-service.js:130 | a single word gives its first two characters upper-cased |
| BaseApi.SplitTwoWords | src/services/api/base-api-service.js:126 | two words joined by a space split back into the two words |
| BaseApi.LeadingSpaceInitial | src/services/api/base-api-service.js:125-130 | as written: a single word after a leading space gives a space and one letter, since line 130 takes the characters of the untrimmed name |
| BaseApi.GetInitialsTrimmed | src/services/api/base-api-service.js:124-131 | corrected: the single-word branch takes the trimmed name, so the initials never contain white space |
| BaseApi.TrimmedAgrees | src/services/api/base-api-service.js:124-131 | the corrected helper agrees with the original on every name that needs no trimming |
| AdvancedSearchApi.ParamValue | src/services/api/advanced-search-api-service.js:78-80 | a truthy field is sent as it is and a falsy one as `''` |
| AdvancedSearchApi.BuildSearchParams | src/services/api/advanced-search-api-service.js:72-85 | the loop over the criteria yields exactly the parameters of the criteria (none when there is no `criteria` array), or the `TypeError` of a nullish argument or criterion |
| AdvancedSearchApi.ParamKeyInjective | src/services/api/advanced-search-api-service.js:78-80 | two parameter names are equal only for the same criterion and the same field |
| AdvancedSearchApi.ParamsKeys | src/services/api/advanced-search-api-service.js:77-81 | a key is set iff it is `criteria[i].attributeId`, `criteria[i].operator` or `criteria[i].value` for some criterion `i` |
| AdvancedSearchApi.ParamsValue | src/services/api/advanced-search-api-service.js:77-81 | each criterion's field is sent under its own name, with the value of `criterion[field] \|\| ''` |
| AdvancedSearchApi.FreshKeys | src/services/api/advanced-search-api-service.js:77-81 | the three names of a criterion are distinct and were not set by the criteria before it |
| AdvancedSearchApi.ParamsCount | src/services/api/advanced-search-api-service.js:77-81 | there are exactly three parameters per criterion |
| AdvancedSearchApi.SearchParamsSpec | src/services/api/advanced-search-api-service.js:72-85 | without a `criteria` array the parameters are `{}`; with one they are defined iff no criterion is nullish, and then number three per criterion |
| AdvancedSearchApi.HasMoreSpec | src/services/api/advanced-search-api-service.js:55-61 | `hasMore` holds iff `startIndex` plus the number of results is below a numeric `countOfRecords`; with no count, a page starting at or after the first record has no more; the data is the extracted list |
| ValidationService.ValidateForm | src/shared/services/validationService.js:17-36 | the error map is the mandatory pre-check's map extended, attribute by attribute, with every failing direct attribute under `attributeId \|\| id`; `isValid` holds iff the map has no key |
| ValidationService.GetErrorMessage | src/shared/services/validationService.js:48-51 | a message is returned only for an id holding a non-empty list |
| ValidationService.FailurePairsEmpty | src/shared/services/validationService.js:21-29 | nothing is stored iff no direct attribute of any section passes the filter and fails |
| ValidationService.ValidIffNoFailure | src/shared/services/validationService.js:17-35 | the form is valid iff no direct attribute fails; nested sections are not looked at |
| ValidationService.FormErrorsLookup | src/shared/services/validationService.js:18-28 | a key the full check stored holds the list of the last failing attribute with that key, overwriting the pre-check; a pre-check entry survives only under a key the full check never used |
| ValidationService.FormErrorsNonEmpty | src/shared/services/validationService.js:18-28 | every stored list is non-empty |
| ValidationService.ResultQueries | src/shared/services/validationService.js:32-51 | `getErrorMessage` answers iff the id is in the map, with the first message; `hasErrors` holds iff some direct attribute fails |
| ValidationService.UnnamedReportedTwice | src/shared/services/validationService.js:18-27 | as written: a mandatory attribute with neither `attributeId` nor `id` left empty is reported under `''` by the pre-check and again under `"undefined"`, so the map differs from the full check's |
| ValidationService.UnnamedPairs | src/shared/services/validationService.js:18-27 | the two passes store that attribute's error under `"undefined"` and under `''` |
| ValidationService.FormErrorsByIdIsFullCheck | src/shared/services/validationService.js:17-30 | corrected: keyed by `getAttributeId` in both passes, the merged map is exactly the full check's map, one key per failing attribute |
| AttributeUtils.ResolveTagName | src/shared/utils/attributeUtils.js:14-17 | the storage key is the attribute's own non-empty `tagName` when it has one, otherwise `right[0].tagName`; no key at all when neither is a non-empty string, and a key is never empty |
| AttributeUtils.SetAt | src/shared/utils/attributeUtils.js:47-53 | writing index `i` of a container succeeds exactly for arrays and objects; afterwards index `i` reads back the value written and every other existing index is unchanged |
| AttributeUtils.FormData.constructor | src/shared/utils/attributeUtils.js:33 | a form-data object starts out holding exactly the record it is given |
| AttributeUtils.SetAttributeValue | src/shared/utils/attributeUtils.js:33-60 | `setAttributeValue` returns the same form-data object; without one nothing happens and nothing is thrown; otherwise it reports a failure exactly when the row write fails (see TableWriteFailure), leaves the record untouched then, and otherwise replaces the record by the written one |
| AttributeUtils.MissingInputs | src/shared/utils/attributeUtils.js:10-41 | with no attribute, no form data or no resolvable tag name, the read gives `null` and the write leaves the record as it was |
| AttributeUtils.PlainRoundTrip | src/shared/utils/attributeUtils.js:27-56 | outside the table case a write always succeeds, reading the same attribute back gives the value written, the record gains only the tag-name key and every other key keeps its value |
| AttributeUtils.TableWriteWithoutLineType | src/shared/utils/attributeUtils.js:20-46 | a table attribute without a `lineType` written with a row index changes nothing, and its read falls back to the top-level key |
| AttributeUtils.TableWriteFailure | src/shared/utils/attributeUtils.js:47-53 | a row write fails exactly when the line-type entry is a truthy primitive, or the row is truthy and not a plain object: a primitive row, where the source throws, or an array row, whose named property the model cannot hold |
| AttributeUtils.TableRoundTrip | src/shared/utils/attributeUtils.js:20-54 | a successful row write reads back the value written at that row; only the line-type key changes; the row becomes an object holding the value under the tag name and keeping the old row's other properties (none when the row was missing) |
| AttributeUtils.FlagsAcceptOnlyTrue | src/shared/utils/attributeUtils.js:65-74 | mandatory and disabled hold only for `true` or `'true'`: a flag of `1`, `'yes'` or `'TRUE'` does not count, and a missing attribute is neither |
| AttributeUtils.EnabledByDefault | src/shared/utils/attributeUtils.js:79-81 | an object is enabled unless `isEnabled` is `false` or `'false'`, including when the flag is missing; `null` and `undefined` are not enabled |
| AttributeUtils.TagNameOrders | src/shared/utils/attributeUtils.js:100-105 | `getTagName` takes `right[0].tagName` whenever `right[0]` exists and the own `tagName` otherwise, so it disagrees with the storage key of line 14 whenever both are set and differ |
| AttributeUtils.GetTagPrecedence | src/shared/utils/attributeUtils.js:120-125 | an existing `right[i]` decides the tag even when it has none; without it `attributeTag` wins over `tag` |
| AttributeUtils.TypePredicatesFollowRightTag | src/shared/utils/attributeUtils.js:245-248 | when `right[0]` exists, the number test depends only on its tag, and so do the email test of lines 327-330 (with the email flag) and the string test of lines 406-410 |
| AttributeUtils.OneTagKind | src/shared/utils/attributeUtils.js:218-371 | each tag-decided type check (checkbox, radio, select, number, date, dateTime, textarea, duration, salutation, toggle, tags, file upload) holds iff the resolved tag names its kind in an independent tag table; so at most one of them holds, and the extra `right?.[0]?.tag` test never changes a verdict |
| AttributeUtils.NumericKinds | src/shared/utils/attributeUtils.js:397-401 | the numeric check holds iff the tag is number, currency or formula; a currency given only by `displayType` (line 255) is not numeric, and a formula tag is numeric, a string (lines 406-410) and a formula (lines 303-306) at once |
| AttributeUtils.CombinedSpec | src/shared/utils/attributeUtils.js:389-392 | an attribute is combined iff it has at least two right elements and the first one's tag is none of `check`, `checkbox`, `radio` |
| AttributeUtils.AttributeOrigin | src/shared/utils/attributeUtils.js:375-384 | standard and custom exclude each other; a typeless attribute is custom iff it has a truthy `customAttributeId`; a `RelatedObject` attribute is neither |
| AttributeUtils.SectionKinds | src/shared/utils/attributeUtils.js:190-214 | a `table` section is never a form section, but a section with a `lineType` and no type is both; standard and custom sections exclude each other, a typeless section is custom, a `RelatedObject` one neither, and a missing section is none |
| AttributeUtils.ValidateAttributeSpec | src/shared/utils/attributeUtils.js:417-468 | a required error appears iff the attribute is mandatory and the value is null, undefined, `''` or `[]`; an email error appears iff the attribute is an email kind and the value is truthy and does not match the address pattern; every error carries the label and is reported only under the condition its check states |
| AttributeUtils.RangeErrorsSpec | src/shared/utils/attributeUtils.js:429-439 | a range error is only ever below-min or above-max, for a number or currency attribute whose value reads as a number beyond that bound |
| AttributeUtils.LengthErrorsSpec | src/shared/utils/attributeUtils.js:442-449 | a length error is only ever too-long or too-short, for a string-kind attribute holding a string beyond a non-zero bound |
| AttributeUtils.EmailExamples | src/shared/utils/attributeUtils.js:453-456 | the address pattern accepts `a@b.c` and rejects `a@b`, `a b@c.d` and `a@@b.c` |
| AttributeUtils.ValidateMandatoryFields | src/shared/utils/attributeUtils.js:474-490 | the error map is built by storing, in section and attribute order, the error list of each mandatory attribute that fails validation under its id, so a later attribute with the same id wins |
| AttributeUtils.FailurePairsMember | src/shared/utils/attributeUtils.js:477-487 | an (id, errors) pair is stored iff some direct attribute of some section is looked at, has that id and fails with exactly that list; nested sections are not scanned |
| AttributeUtils.FailurePairsSound | src/shared/utils/attributeUtils.js:477-487 | every stored pair comes from a failing direct attribute of one of the sections |
| AttributeUtils.FailurePairsComplete | src/shared/utils/attributeUtils.js:477-487 | every failing direct attribute of every section gets its pair stored |
| AttributeUtils.FailurePairsOfMember | src/shared/utils/attributeUtils.js:478-486 | within one section, a pair is stored iff one of its attributes fails with that id and list |
| AttributeUtils.FirstIdIndex | src/shared/utils/attributeUtils.js:552 | `find` stops at the first attribute with the id: none before it has the id, and the one it stops at does |
| AttributeUtils.FindByIdAppend | src/shared/utils/attributeUtils.js:550-566 | searching two lists in a row finds the first list's match when there is one, otherwise the second list's |
| AttributeUtils.GetAttributeById | src/shared/utils/attributeUtils.js:545-569 | the result is the first attribute with the id in pre-order: a section's own attributes, then its inner sections, then the following sections |
| AttributeUtils.WithTagSpec | src/shared/utils/attributeUtils.js:580-584 | the tag selection keeps the attributes in their order and holds exactly those whose `getTag` is the tag |
| AttributeUtils.WithTagAppend | src/shared/utils/attributeUtils.js:579-590 | selecting by tag over two lists in a row gives the two selections one after the other |
| AttributeUtils.GetAttributesByTag | src/shared/utils/attributeUtils.js:572-593 | the results are every attribute of the section tree whose `getTag` is the tag, in pre-order |
| AttributeUtils.GetValidSections | src/shared/utils/attributeUtils.js:155-174 | no array gives `[]`; otherwise the result keeps the sections in their order and holds exactly those whose `mode` list is absent or contains the mode |
| AttributeUtils.KeepAllowed | src/shared/utils/attributeUtils.js:160-173 | the filter keeps the order and holds exactly the sections the mode allows |
| ConfigDataConverter.PutSection | src/shared/utils/configDataConverter.js:55-68 | one `processSection` call stores, in walk order, an entry for each of the section's own attributes with a truthy `attributeId` and then those of its inner sections |
| ConfigDataConverter.PutSections | src/shared/utils/configDataConverter.js:66-124 | `forEach(processSection)` over a list stores the entries of each section's walk one after the other |
| ConfigDataConverter.BuildAttributesMap | src/shared/utils/configDataConverter.js:52-72 | the attribute table is the walk's assignments `attributeId → attribute`, later ones overwriting earlier ones |
| ConfigDataConverter.BuildAttributeSectionsMap | src/shared/utils/configDataConverter.js:105-126 | the owner table is the walk's assignments `attributeId → id \|\| sectionId` of the holding section, later ones overwriting earlier ones |
| ConfigDataConverter.OwnHeldMember | src/shared/utils/configDataConverter.js:56-115 | a section's own list contributes exactly its attributes with a truthy `attributeId`, each with the section's key as owner |
| ConfigDataConverter.WalkMember | src/shared/utils/configDataConverter.js:52-72 | the walk over a list meets exactly the (attribute, owner) pairs of every section anywhere in the tree whose attribute has a truthy id |
| ConfigDataConverter.WalkSectionMember | src/shared/utils/configDataConverter.js:55-68 | the walk from one section meets exactly the pairs of that section and the sections below it |
| ConfigDataConverter.LastHeld | src/shared/utils/configDataConverter.js:59 | the last walk entry with a given id: it has the id and no later entry does |
| ConfigDataConverter.PutPairsLast | src/shared/utils/configDataConverter.js:59-113 | after the assignments a key is present iff it was before or some entry has it, and then it holds the value from the last entry with that key |
| ConfigDataConverter.WalkEntry | src/shared/utils/configDataConverter.js:58-112 | every walk entry's key is its attribute's own non-empty `attributeId` |
| ConfigDataConverter.AttributeTableKeys | src/shared/utils/configDataConverter.js:52-126 | the attribute table and the owner table have the same keys: exactly the ids the walk meets |
| ConfigDataConverter.NamedInTree | src/shared/utils/configDataConverter.js:56-67 | an id is met by the walk iff it is non-empty and some attribute of some section of the tree carries it |
| ConfigDataConverter.AttributeTablesLast | src/shared/utils/configDataConverter.js:59-113 | for an id met by the walk both tables take the last attribute with that id and that attribute's section, and no later attribute of the walk has the id |
| ConfigDataConverter.Stamped | src/shared/utils/configDataConverter.js:80-97 | stamping keeps the length of every section list and treats each section at its own position |
| ConfigDataConverter.StampedIsStamped | src/shared/utils/configDataConverter.js:81-91 | after the walk every keyed section at every depth carries its position in its parent list as `index` |
| ConfigDataConverter.StampedTreeFixed | src/shared/utils/configDataConverter.js:84 | a tree already carrying its positions is left unchanged by the stamping |
| ConfigDataConverter.StampIdempotent | src/shared/utils/configDataConverter.js:77-100 | converting the same section list twice stamps the same indexes as converting it once |
| ConfigDataConverter.StampSections | src/shared/utils/configDataConverter.js:80-97 | the `index` writes of the walk, at every depth, give the stamped tree |
| ConfigDataConverter.PutSectionsByKey | src/shared/utils/configDataConverter.js:81-92 | the section table stores each keyed section under `id \|\| sectionId` in walk order, a section before its inner sections |
| ConfigDataConverter.BuildSectionsMap | src/shared/utils/configDataConverter.js:77-100 | `buildSectionsMap` leaves the section list stamped and returns the table of its keyed sections |
| ConfigDataConverter.SectionPairsMember | src/shared/utils/configDataConverter.js:81-91 | a (key, section) assignment happens iff the section lies in the tree and its non-empty key is that key |
| ConfigDataConverter.StampedPlaced | src/shared/utils/configDataConverter.js:84-90 | in a stamped tree every keyed section's `index` is a position at which it sits in its parent list |
| ConfigDataConverter.StampedKeysBack | src/shared/utils/configDataConverter.js:84 | stamping adds no section key that was not in the tree before |
| ConfigDataConverter.StampedKeysForth | src/shared/utils/configDataConverter.js:84 | stamping loses no section key of the tree |
| ConfigDataConverter.SectionsTable | src/shared/utils/configDataConverter.js:77-100 | the section table's keys are exactly the non-empty section keys of the tree; the section stored under a key has that key, lies in the stamped tree and carries its position |
| ConfigDataConverter.ListOr | src/shared/utils/configDataConverter.js:34-39 | a reference list defaults to `[]`: the result is always truthy, the given list when that is truthy |
| ConfigDataConverter.ConvertConfigDataToUiOptions | src/shared/utils/configDataConverter.js:4-47 | options come back iff the payload is there and its layout (parsed when text) has sections; they carry the stamped sections, the layout's id and name, `objectIdx` defaulting to `{}`, the payload itself, each reference list defaulting to `[]` and the three tables of the section list |
| ConfigDataConverter.MapList | src/shared/utils/configDataConverter.js:146-162 | `(list \|\| []).map(f)` gives `[]` for a falsy list, throws iff the list is truthy and not an array or has a null or undefined entry, and otherwise maps every entry in order |
| ConfigDataConverter.OptionObject | src/shared/utils/configDataConverter.js:146-166 | an option is an object with exactly `id`, `name` and `code`, holding the values given |
| ConfigDataConverter.GetAttributeOptions | src/shared/utils/configDataConverter.js:131-175 | no attribute or no payload gives `[]`; a throw happens only for an attribute without its own option list |
| ConfigDataConverter.OptionsPrecedence | src/shared/utils/configDataConverter.js:136-174 | the attribute's own list wins; otherwise the id picks statuses, then priorities, then types, ignoring `right[0].options`, which is used only when the id names none of them; each mapped option has exactly `id`, `name` and `code` |
| ConfigDataConverter.NoIdTakesRightOptions | src/shared/utils/configDataConverter.js:142-174 | an attribute without an id or its own list takes `right[0].options` (or `[]`) and never throws |
| ConfigDataConverter.StatusOptionFields | src/shared/utils/configDataConverter.js:146-150 | a status option takes `statusId`, `statusName` and `statusCode` when they are truthy and the plain `id`, `name` and `code` otherwise |
| InitIndexes.PairsAppend | src/shared/services/uiRendererInitializationService.js:79-108 | the attribute assignments and owner pushes of two runs of occurrences are those of the first run followed by those of the second |
| InitIndexes.InTreeSnoc | src/shared/services/uiRendererInitializationService.js:62-114 | an attribute sits in a section list iff it sits in the sections before the last or in the last |
| InitIndexes.AttrOccsMember | src/shared/services/uiRendererInitializationService.js:72-85 | a section's own list yields exactly its attributes with a truthy `attributeId \|\| id`, each with the section's id as owner |
| InitIndexes.ColumnOccsMember | src/shared/services/uiRendererInitializationService.js:94-112 | the columns of a table yield exactly their attributes with a truthy key, each with the table section's id as owner |
| InitIndexes.OccsMember | src/shared/services/uiRendererInitializationService.js:59-115 | the traversal meets exactly the attributes of the layout with a truthy key (direct, in inner sections, or in table columns), each with the id of the section holding it |
| InitIndexes.DrivingSections | src/shared/services/uiRendererInitializationService.js:38-45 | the driving sections are at most one per key of the derived-sections map, each the first section listed under a key that has one |
| InitIndexes.DependentPairs | src/shared/services/uiRendererInitializationService.js:137-144 | an array of dependents under `key` pushes `key` under exactly each listed dependent (as a property key) |
| InitIndexes.EntryPairsMember | src/shared/services/uiRendererInitializationService.js:135-146 | one dependency entry pushes `key` under `dependent` iff one of its properties named `key` is an array listing `dependent` |
| InitIndexes.LastListed | src/shared/services/uiRendererInitializationService.js:136-145 | a single property pushes `key` under `dependent` iff it is named `key` and its array lists `dependent`; a non-array value pushes nothing |
| InitIndexes.EntryListsStep | src/shared/services/uiRendererInitializationService.js:135 | one property more lists what the earlier properties list plus what it lists itself |
| InitIndexes.DependencyPairsMember | src/shared/services/uiRendererInitializationService.js:131-147 | the pushes over all entries (falsy entries skipped) are exactly the (dependent, key) pairs some entry lists |
| InitIndexes.DependsOnInverse | src/shared/services/uiRendererInitializationService.js:120-148 | the dependency map is the inverse of the configured lists: `key` appears under `dependent` iff some entry lists `dependent` under `key` |
| InitIndexes.ReferencePairsOfMember | src/shared/services/uiRendererInitializationService.js:163-175 | one section's attributes are grouped under exactly their non-empty reference ids |
| InitIndexes.TopLevelStep | src/shared/services/uiRendererInitializationService.js:159-176 | a direct attribute of a section list is one of the sections before the last or of the last |
| InitIndexes.ReferencePairsMember | src/shared/services/uiRendererInitializationService.js:158-176 | the reference pushes are exactly the direct attributes of the top-level sections with a non-empty reference id, under that id; inner sections are not visited |
| InitIndexes.ReferenceGroups | src/shared/services/uiRendererInitializationService.js:153-177 | an attribute is listed under a reference id iff it is a direct attribute of a top-level section carrying that non-empty reference id, and the list is exactly those attributes in layout order |
| InitIndexes.ReferenceGroupOrder | src/shared/services/uiRendererInitializationService.js:163-175 | the list under a non-empty reference id is the direct top-level attributes referring to it, in layout order: a subsequence of them holding each referring attribute as often as it occurs; an empty id has no list |
| InitIndexes.SectionInTreeSnoc | src/shared/services/uiRendererInitializationService.js:62-91 | a section lies in a list's tree iff it lies in the tree of the sections before the last or of the last |
| InitIndexes.SectionPairsMember | src/shared/services/uiRendererInitializationService.js:66-91 | the section assignments name exactly the sections of the tree under their non-empty `sectionId \|\| id` |
| InitIndexes.AttrPairsMember | src/shared/services/uiRendererInitializationService.js:79-104 | an attribute assignment (k, a) happens iff some occurrence has key k and attribute a |
| InitIndexes.OwnerPairsMember | src/shared/services/uiRendererInitializationService.js:83-108 | an owner push (k, o) happens iff some occurrence has key k and owner o |
| InitIndexes.OccsPairs | src/shared/services/uiRendererInitializationService.js:59-115 | owner o is pushed under id k iff some attribute with id k sits in the tree under owner o; attribute a is assigned to k iff a has id k and sits in the tree |
| InitIndexes.OwnersListed | src/shared/services/uiRendererInitializationService.js:19-54 | after both passes the owner list of an id holds o iff an attribute with that id sits under owner o in the layout or in the driving sections; a missing id reads as an empty list; the list has one owner per occurrence of the id, in traversal order |
| InitIndexes.OwnerListOrder | src/shared/services/uiRendererInitializationService.js:72-108 | the owner list of an id is the owners of that id's occurrences, once per occurrence, in traversal order (a section's attributes, then its inner sections, then its table columns), the top-level tree before the driving sections |
| InitIndexes.AttributesListed | src/shared/services/uiRendererInitializationService.js:19-54 | after both passes an id is a key of the attribute table iff some attribute of the layout or the driving sections has it, and the attribute stored under it is such an attribute |
| InitIndexes.SectionsListed | src/shared/services/uiRendererInitializationService.js:19-54 | after both passes a key is in the section table iff some section of the layout or the driving sections has that non-empty id, and the section stored under it is such a section |
| SectionFilter.ValidateSections | src/shared/services/uiRendererInitializationService.js:342-400 | the sections kept are, in order, those neither disabled nor hidden (`false` or `'false'`) that still have inner sections, attributes or columns once their own inner sections are filtered the same way |
| SectionFilter.FilterIsClean | src/shared/services/uiRendererInitializationService.js:355-397 | after filtering every section at every depth is enabled, visible and has content |
| SectionFilter.CleanIsFixed | src/shared/services/uiRendererInitializationService.js:355-397 | a list that is already clean at every depth passes the filter unchanged |
| SectionFilter.FilterIdempotent | src/shared/services/uiRendererInitializationService.js:342-400 | filtering twice gives the same sections as filtering once |
| SectionFilter.FilterMember | src/shared/services/uiRendererInitializationService.js:381-395 | a section is in the result iff it is the pruned form of a kept section of the input |
| SectionFilter.PruneAll | src/shared/services/uiRendererInitializationService.js:383-385 | pruning a list treats every section at its own position and keeps the length |
| SectionFilter.FilterKeepsOrder | src/shared/services/uiRendererInitializationService.js:355-397 | the kept sections appear in their original relative order |
| SectionFilter.ResetAddress | src/shared/services/uiRendererInitializationService.js:351 | an address object gets `isAdded` false and keeps every other property |
| SectionFilter.ResetAddresses | src/shared/services/uiRendererInitializationService.js:349-353 | the reset loop gives every address object of an address array `isAdded` false |
| SectionFilter.ResetAllSpec | src/shared/services/uiRendererInitializationService.js:349-353 | the reset keeps the list's length, sets `isAdded` false on every address object, and a second reset changes nothing |
| LayoutUpgrade.DateTagName | src/shared/services/uiRendererInitializationService.js:312 | the tag name given to a date control is never empty: the attribute's own `tagName`, or `date_` followed by its id (`date_undefined` without one) |
| LayoutUpgrade.UpgradeAttribute | src/shared/services/uiRendererInitializationService.js:307-315 | a date or date-time control without a tag name on `right[0]` receives one and nothing else changes; every other attribute is left as it is; afterwards every date control has a tag name |
| LayoutUpgrade.UpgradeAll | src/shared/services/uiRendererInitializationService.js:302-321 | the attribute loop patches every attribute at its own position and keeps the length |
| LayoutUpgrade.UpgradeSection | src/shared/services/uiRendererInitializationService.js:299-321 | a section's attributes are patched one by one and nothing else of the section changes; inner sections are not visited |
| LayoutUpgrade.UpgradeSections | src/shared/services/uiRendererInitializationService.js:298-322 | the section loop patches every top-level section at its own position |
| LayoutUpgrade.UpgradeCustomList | src/shared/services/uiRendererInitializationService.js:318-320 | when some top-level attribute is of type `Custom` the record's custom list ends up truthy; a truthy list, or one with no Custom attribute around, is left as it is |
| LayoutUpgrade.UpgradeWebLayout | src/shared/services/uiRendererInitializationService.js:294-323 | `upgradeWebLayout` gives the patched layout and custom list; a missing layout or one without sections changes nothing |
| LayoutUpgrade.UpgradeAttributes | src/shared/services/uiRendererInitializationService.js:302-321 | one section's loop patches its attributes and creates the custom list iff a Custom attribute is met while the list is falsy |
| LayoutUpgrade.PatchDateControl | src/shared/services/uiRendererInitializationService.js:307-315 | the in-loop patch of `right[0].tagName` is the date patch of the attribute |
| LayoutUpgrade.HasCustomInSnoc | src/shared/services/uiRendererInitializationService.js:318 | one attribute more: a Custom attribute is met iff it was before or this one is Custom |
| LayoutUpgrade.HasCustomSnoc | src/shared/services/uiRendererInitializationService.js:298-322 | one section more: a Custom attribute is met iff it was before or this section has one |
| LayoutUpgrade.UpgradeIdempotent | src/shared/services/uiRendererInitializationService.js:294-323 | upgrading twice gives the same layout and the same custom list as upgrading once |
| LayoutUpgrade.KindsKept | src/shared/services/uiRendererInitializationService.js:307-318 | the date patch changes no attribute's type, so the layout has a Custom attribute after it iff before |
| CustomAttributes.MarkCustom | src/shared/services/uiRendererInitializationService.js:503-505 | in a Custom section an attribute whose type is missing or `'undefined'` becomes Custom; nothing but the type ever changes, and a non-Custom result is the attribute unchanged |
| CustomAttributes.MarkAll | src/shared/services/uiRendererInitializationService.js:487-491 | marking a section treats every attribute at its own position and keeps their number |
| CustomAttributes.MarkIdempotent | src/shared/services/uiRendererInitializationService.js:503-505 | marking twice is marking once |
| CustomAttributes.InitTagName | src/shared/services/uiRendererInitializationService.js:565-571 | the lookup tag name is a non-empty `right[0].tagName`, else a non-empty `tagName`, else `null` exactly when neither is there |
| CustomAttributes.RightTagName | src/shared/services/uiRendererInitializationService.js:514-557 | `right[0].tagName \|\| tagName` is truthy iff one of the two is a non-empty string |
| CustomAttributes.FirstMatch | src/shared/services/uiRendererInitializationService.js:536-543 | the lookup finds the first entry whose `customAttributeId` equals the attribute id or the lookup tag name; no earlier entry matches, and no entry matches when nothing is found |
| CustomAttributes.FindCustomAttributeIdx | src/shared/services/uiRendererInitializationService.js:532-544 | `findCustomAttributeIdx` gives the first matching entry of an array and nothing for anything else |
| CustomAttributes.FirstMatchIs | src/shared/services/uiRendererInitializationService.js:536-541 | a matching entry with no match before it is the one the lookup returns |
| CustomAttributes.FirstMatchNone | src/shared/services/uiRendererInitializationService.js:536-543 | with no matching entry the lookup returns nothing |
| CustomAttributes.CreateEntry | src/shared/services/uiRendererInitializationService.js:549-560 | an entry is created iff `right[0]` exists; it is an object that matches its attribute, with the attribute id, `right[0].tag` as type, `right[0].tagName \|\| tagName` as tag name and name, and `''` as value |
| CustomAttributes.FillTagNames | src/shared/services/uiRendererInitializationService.js:514-515 | filling sets the tag name and name of an entry object and keeps its id, truthiness and `isNew`; the model leaves a non-object entry as it is, where the source throws on a primitive one |
| CustomAttributes.DropIsNew | src/shared/services/uiRendererInitializationService.js:493 | `delete isNew` removes only that property and keeps the id and truthiness |
| CustomAttributes.FoundEntry | src/shared/services/uiRendererInitializationService.js:511-516 | updating a found entry keeps its id, truthiness and `isNew` (an object entry; a primitive one makes the source throw) |
| CustomAttributes.Step | src/shared/services/uiRendererInitializationService.js:491-523 | one attribute adds at most one entry; old entries keep their ids and truthiness and are unchanged or not flagged new; an added entry is truthy and not flagged new; a non-Custom attribute changes nothing; an unmatched Custom attribute appends its created entry when it has a `right[0]` and nothing otherwise |
| CustomAttributes.GetFormattedCustomAttributeValue | src/shared/services/uiRendererInitializationService.js:491-527 | the attribute comes back marked and the entry list as one step for the marked attribute describes |
| CustomAttributes.UpdateFoundEntry | src/shared/services/uiRendererInitializationService.js:513-516 | a found entry without a truthy tag name gets `right[0].tagName \|\| tagName` as tag name and name when the attribute has a `right[0]` |
| CustomAttributes.FormatCustomIdxValues | src/shared/services/uiRendererInitializationService.js:484-497 | an array list is folded over the marked attributes in order and the section comes back marked; anything else leaves both as they were |
| CustomAttributes.FirstMatchGrow | src/shared/services/uiRendererInitializationService.js:536-541 | appending entries, or changing entries without changing their ids, leaves an earlier match where it was and adds no match among the old entries |
| CustomAttributes.FoldKeepsEntries | src/shared/services/uiRendererInitializationService.js:487-496 | the pass over a section only appends: old entries keep their ids and truthiness |
| CustomAttributes.ResolvedStepKeepsLength | src/shared/services/uiRendererInitializationService.js:491-495 | an attribute that already has a usable entry (or no `right[0]`) adds nothing |
| CustomAttributes.StepFound | src/shared/services/uiRendererInitializationService.js:509-516 | a found entry that is truthy and not flagged new is updated in place and nothing is pushed |
| CustomAttributes.StepResolvesOwn | src/shared/services/uiRendererInitializationService.js:508-523 | after its step a Custom attribute has a usable entry (or has no `right[0]`), and all entries stay truthy |
| CustomAttributes.StepKeepsResolved | src/shared/services/uiRendererInitializationService.js:491-495 | a step for one attribute keeps every other attribute's usable entry usable |
| CustomAttributes.FoldKeepsResolved | src/shared/services/uiRendererInitializationService.js:487-496 | treating more attributes keeps an attribute with a usable entry in that state |
| CustomAttributes.FoldResolves | src/shared/services/uiRendererInitializationService.js:487-496 | after the pass over a list of truthy entries every attribute of the section has a usable entry or no `right[0]` |
| CustomAttributes.FoldResolvedKeepsLength | src/shared/services/uiRendererInitializationService.js:487-496 | a pass over attributes that all have usable entries adds no entry |
| CustomAttributes.SecondPassAddsNothing | src/shared/services/uiRendererInitializationService.js:484-497 | running `formatCustomIdxValues` again with the section the first run returned adds no entry and changes no attribute, as long as the entries are truthy |
| CustomAttributes.FormatCovers | src/shared/services/uiRendererInitializationService.js:484-497 | after formatting, the old entries keep their ids and every Custom attribute with a `right[0]` has a matching entry |
| CustomAttributes.InitTableIndex | src/shared/services/uiRendererInitializationService.js:596-602 | a falsy row list under `lineType \|\| id` becomes `[]`, a truthy one is kept, and no other key changes |
| CustomAttributes.FormatRows | src/shared/services/uiRendererInitializationService.js:468-475 | the rows keep their number; a row whose custom list is not a non-empty array is untouched; the section ends up as it was or marked |
| CustomAttributes.KeepsRecordTrans | src/shared/services/uiRendererInitializationService.js:449-478 | the record guarantees of two passes compose |
| CustomAttributes.UpdateSection | src/shared/services/uiRendererInitializationService.js:450-477 | one section is left as it was or comes back marked; a related-object section changes neither itself nor the record |
| CustomAttributes.KeepsArrayWrite | src/shared/services/uiRendererInitializationService.js:599-601 | writing an array over an array or a falsy value, as here and at line 444, keeps the record guarantees |
| CustomAttributes.UpdateSectionRecord | src/shared/services/uiRendererInitializationService.js:450-477 | one section's pass keeps arrays arrays, truthy values truthy and other truthy values untouched, and leaves the row list of a table section truthy (an array unless it was a truthy non-array) |
| CustomAttributes.TableSectionRecord | src/shared/services/uiRendererInitializationService.js:462-476 | the table branch keeps the record guarantees and leaves the table's row list ready |
| CustomAttributes.UpdateSections | src/shared/services/uiRendererInitializationService.js:449-478 | the sections keep their number and order, each left as it was or marked, related-object sections untouched |
| CustomAttributes.FormatTableRows | src/shared/services/uiRendererInitializationService.js:468-475 | the rows loop gives the rows and section described by the row formatting |
| CustomAttributes.UpdateSectionsSnoc | src/shared/services/uiRendererInitializationService.js:449-478 | one section more: its pass runs on the record the earlier sections left |
| CustomAttributes.UpdateOneSection | src/shared/services/uiRendererInitializationService.js:450-477 | the loop body gives the section and record one section's pass describes |
| CustomAttributes.UpdateCustomAttributeValues | src/shared/services/uiRendererInitializationService.js:442-479 | the record's falsy custom list becomes `[]` first; then the top-level sections are treated in order, threading the record |
| CustomAttributes.ReadyKept | src/shared/services/uiRendererInitializationService.js:449-478 | a table made ready stays ready through later passes that keep the record guarantees |
| CustomAttributes.UpdateSectionsRecord | src/shared/services/uiRendererInitializationService.js:449-478 | the whole pass keeps the record guarantees and leaves every top-level table section's row list ready |
| CustomAttributes.SectionsRecordStep | src/shared/services/uiRendererInitializationService.js:449-478 | the record after a list of sections is the last section's pass on the record left by the others |
| CustomAttributes.CustomListIsArray | src/shared/services/uiRendererInitializationService.js:442-479 | when the record's custom list starts as an array or falsy, it ends as an array; a truthy non-array list is left as it was |
| UiRendererInit.NextMode | src/shared/services/uiRendererInitializationService.js:188-193 | a missing mode takes the argument; an existing mode becomes `VIEW` on a VIEW page and is kept otherwise |
| UiRendererInit.NextModeSettles | src/shared/services/uiRendererInitializationService.js:188-193 | running the mode step twice gives what running it once gives, except exactly for a missing mode on a VIEW page with an argument other than `''` and `VIEW`; a third run never changes anything |
| UiRendererInit.ModeChangesOnSecondRun | src/shared/services/uiRendererInitializationService.js:188-193 | a session without a mode on a VIEW page is `CREATE` after one initialisation and `VIEW` after a second |
| UiRendererInit.CurrencyFormat | src/shared/services/uiRendererInitializationService.js:195-200 | the currency format is the configured symbol type when truthy and `CURRENCY_FORMAT_SYMBOL` otherwise, never empty |
| UiRendererInit.GetObjectId | src/shared/services/uiRendererInitializationService.js:262-270 | the object id is the session's own truthy id, else the layout's truthy id, else `null`; it is truthy iff one of the two is |
| UiRendererInit.IsDisabledAllFields | src/shared/services/uiRendererInitializationService.js:275-278 | all fields are disabled iff the flag is the boolean `true` |
| UiRendererInit.DependsOnResult | src/shared/services/uiRendererInitializationService.js:120-148 | without a config cache the map is left alone; a dependency list that is not an array gives `{}`; otherwise `key` is listed under `dependent` iff some entry lists `dependent` under `key` |
| UiRendererInit.ReferenceResult | src/shared/services/uiRendererInitializationService.js:153-158 | without a layout the reference map is left alone, with one it is always set |
| UiRendererInit.ReferenceResultGroups | src/shared/services/uiRendererInitializationService.js:153-177 | with a layout an attribute is listed under a reference id iff it is a direct attribute of a top-level section carrying that non-empty id, and each list is those attributes in layout order, once per occurrence |
| UiRendererInit.MarkedKeepsClean | src/shared/services/uiRendererInitializationService.js:449-478 | marking attributes of sections keeps a clean section list clean |
| UiRendererInit.PipelineSpec | src/shared/services/uiRendererInitializationService.js:235-245 | after upgrade, filter and custom entries the layout is present iff it was, every section left is clean at every depth, and the custom list is an array unless it was a truthy non-array |
| UiRendererInit.InitializedSettings | src/shared/services/uiRendererInitializationService.js:183-233 | initialisation settles the mode as the mode step says, always sets a non-empty currency format, sets the disable flag and object id, builds the lookup tables from the layout before filtering, inverts the dependencies, and leaves the page mode, configuration and derived sections alone |
| UiRendererInit.InitializedLayout | src/shared/services/uiRendererInitializationService.js:202-245 | after initialisation the layout is present iff it was, every section left is clean at every depth, the record exists, and its custom list is an array unless it was a truthy non-array |
| UiRendererInit.InitializedReferences | src/shared/services/uiRendererInitializationService.js:250-251 | the reference map is built last, over the final layout: left alone without a layout, otherwise grouping the final top-level attributes by reference id, in layout order |
| UiRendererInit.ReferenceResultGrouped | src/shared/services/uiRendererInitializationService.js:153-177 | with a layout the reference map is set and groups exactly the layout's direct top-level attributes by non-empty reference id, every list in layout order with one entry per occurrence |
| UiRendererInit.Session.IndexAttributes | src/shared/services/uiRendererInitializationService.js:72-86 | one attribute list stores each keyed attribute under its id and pushes the owner id onto that id's list, in order |
| UiRendererInit.Session.GetSectionsAttributesAsMap | src/shared/services/uiRendererInitializationService.js:59-115 | the traversal adds the section, attribute and owner assignments of the whole list to the three tables, in walk order |
| UiRendererInit.Session.IndexSection | src/shared/services/uiRendererInitializationService.js:63-113 | one section adds its own key, its attributes, its inner sections and (for a table) its columns to the tables |
| UiRendererInit.Session.IndexColumns | src/shared/services/uiRendererInitializationService.js:94-112 | the columns of a table add their keyed attributes with the table's id as owner |
| UiRendererInit.Session.PrepareAttributesMap | src/shared/services/uiRendererInitializationService.js:19-54 | the three tables are rebuilt from scratch from the top-level sections and then from the driving sections of the derived-sections map |
| UiRendererInit.Session.InitDependsOnMap | src/shared/services/uiRendererInitializationService.js:120-148 | `initDependsOnMap` sets the dependency map to the inversion of the configured lists |
| UiRendererInit.Session.InitReferenceFieldMap | src/shared/services/uiRendererInitializationService.js:153-177 | `initReferenceFieldMap` sets the reference map to the grouping of the current layout |
| UiRendererInit.Session.GetValidSections | src/shared/services/uiRendererInitializationService.js:329-353 | with a layout that has sections, an address array of the record is reset and the sections are replaced by the filtered ones; otherwise nothing changes |
| UiRendererInit.Session.InitializeUIRenderer | src/shared/services/uiRendererInitializationService.js:183-257 | the session ends in the initialised state of its old fields: see the three `Initialized` lemmas |
| UiRendererInit.Session.Prepare | src/shared/services/uiRendererInitializationService.js:188-233 | steps 1 to 9 give the defaults, then the lookup tables and dependencies over the untouched layout |
| UiRendererInit.Session.FinishLayout | src/shared/services/uiRendererInitializationService.js:235-251 | the layout steps run on the record, then the reference map is built on the final layout |
| UiRendererInit.Session.BuildIndexes | src/shared/services/uiRendererInitializationService.js:229-233 | steps 8 and 9 fill the lookup tables and the dependency map and touch nothing else |
| UiRendererInit.Session.InitDefaults | src/shared/services/uiRendererInitializationService.js:188-227 | steps 1 to 7 set the mode, currency format, record (`{}` when missing), disable flag and object id |
| UiRendererInit.Session.ProcessLayout | src/shared/services/uiRendererInitializationService.js:235-245 | steps 10 to 12 give the layout and record of upgrade, then filter, then custom entries |
| UiRendererInit.IndexedTables | src/shared/services/uiRendererInitializationService.js:19-115 | after `prepareAttributesMap` a key is in the section table iff a section of either tree has it, and in the attribute table iff an attribute of either tree has it, each storing such an element; an id's owner list is the owners of that id's occurrences, once per occurrence, in traversal order |
| UiRendererInit.PushDependents | src/shared/services/uiRendererInitializationService.js:138-144 | the dependents loop pushes `key` under each dependent of the array, in order |
| UiRendererInit.PushEntry | src/shared/services/uiRendererInitializationService.js:135-146 | the loop over one entry's properties pushes the pairs of its array-valued properties, in order |
| UiRendererInit.PushReferences | src/shared/services/uiRendererInitializationService.js:163-175 | the loop over one section's attributes pushes each attribute with a reference id under that id, in order |

## Left out

- Network, async and HTTP code is not modelled. This covers `get`/`post`, axios, the contact, customer and config services, the async bodies of `advancedSearch` and `saveContact`, and reference-field search. Only the payloads they build and read are modelled.
- React rendering, effects, refs and component state wiring are not modelled. Each field is modelled as the value transformation its handlers perform.
- The component-specific props `renderField` passes are not modelled. Only the choice of component and the shared props are.
- Floating point is not modelled. Numbers are reals, NaN is not represented, and `formatNumber`/`formatCurrency` (`toFixed`) are not part of this model.
- Date and locale formatting is not part of this model: `formatDate`, the date fields and the `new Date(...)` branch of the time field.
- `parseFloat`, `JSON.parse` and the `URL` constructor are passed in as parameters.
- The key order of `Object.keys` and `for … in` is passed in as the `keys` and `derivedKeys` sequences.
- `isAttributeVisible`, `updateDependentAttributes`, `getDependentAttributes`, `hasDependencies`, `getTagId`, `deepClone` and the other attributeUtils helpers outside the record, flag, type, validation and search functions are not part of this model.
- The `setTimeout` delay in the phone/e-mail paste handler is not modelled. Only the transformation it schedules is.
- The stubs are modelled as the empty steps they are: `prepareTableAddressAttributeMap`, `updatePhoneEmailValues` and `prepareRefAppFieldAttributesMap`. The helper maps created empty and never filled are not modelled: the table-address, image-extension, PDF-file, line-level, ref-app and mandatory maps.
- The result of `getFieldDependencies` is computed by the source and then discarded, so the model does not compute it.
- The exception thrown when `uiOptions` is null is not modelled. A `Session` always exists.
- Aliasing between `uiOptions` fields is not modelled. The index maps and the sections are held as value snapshots. In the source, a `configData.webLayout` given as an object shares its sections with `uiOptions`, so the stamping of section flags also shows through `configData`. The model keeps `configData` as it was passed.
- AdvancedSearchApi.HasMoreSpec: a truthy `countOfRecords` that is not a number, and `parseInt` applied to a non-numeric `startIndex`, are not modelled.
- BaseApi.GetInitials: upper-casing covers ASCII letters only.
- The configuration argument of `buildContactData` is unused by the source, so `ContactSaveApi.BuildContactData` does not take it.
- ContactSaveApi.StandardNotCustom assumes that the form has no `customAttributeTagName` key. `ContactSaveApi.TagNameOverridden` shows what happens when it does.
- SectionFilter.ResetAddresses: an `addresses` value that is truthy but not an array is not modelled, and neither is a non-object entry in it. Under strict mode the source throws on both.
- CustomAttributes.FindCustomAttributeIdx: a `null` entry in a custom index list is not modelled, and neither is a `null` table row. The source throws on both.
- Layout arrays are assumed to hold no `null` entries: section, attribute and right lists.
- AttributeUtils.GetAttributeById: a sections argument that is not an array is not modelled.
- AttributeUtils.GetAttributesByTag: a sections argument that is not an array is not modelled.
- AttributeUtils.GetValidSections: `section.mode` is modelled as a list of modes. A mode given as a plain string, where `includes` would match a substring, is not modelled.
- CustomAttributes.SecondPassAddsNothing holds only for index lists whose entries are all truthy (`AllTruthy`). A falsy entry such as `0` can still be the first match, since its id reads as `undefined`; it is not updated, and a new entry is created instead, so a second pass could add a duplicate.
- UiRendererInit.Session.InitializeUIRenderer is not idempotent. On a VIEW page, an absent mode takes the argument on the first run and becomes VIEW on the second. `UiRendererInit.ModeChangesOnSecondRun` records this. The default argument `mode = 'CREATE'` is not modelled: the mode is always passed.
- FieldUtils.ApplyCaseConversion: upper- and lower-casing map ASCII letters only, where `toUpperCase`/`toLowerCase` use full Unicode case mapping. So `é` stays `é` in UPPER CASE, and the kept length is a property of the model only: JavaScript turns `ß` into `SS`.
- FieldUtils.CaseConversionSpec: states UPPER and lower case for ASCII letters only, for the reason given for ApplyCaseConversion.
- FieldUtils.ConversionIdempotent: proved for the ASCII case maps only.
- FieldUtils.TitleCase: upper-cases the first character and lower-cases the rest of each word with ASCII maps only. For `aÉ`, JavaScript gives `Aé` and the model `AÉ`.
- FieldUtils.TitleCaseChars: characterises Title Case with the ASCII case maps only.
- FieldUtils.TitleCaseIdempotent: proved for the ASCII case maps only.
- FieldUtils.KeyPressMatchesFilter: the `key.length > 1` test counts Unicode scalar values, where JavaScript counts UTF-16 code units, so a key outside the Basic Multilingual Plane is a single character here.
- TextField.ChangeLength: the `maxLength` bound counts Unicode scalar values, not UTF-16 code units as `slice` does, and the case conversion before it is ASCII-only.
- TextField.FilterBeforeConversion: the conversion after the filter is ASCII-only.
- TextField.TitleExample: an ASCII example; a non-ASCII letter is not re-cased.
- TextField.ProcessIdempotent: proved for the ASCII case maps only.
- TagsField.FilteredOptions: the case-insensitive match lower-cases ASCII letters only, so an input `éc` does not find the option `École`.
- TagsField.FilteredOptionsSpec: "case-insensitively" holds for ASCII letters only, for the reason given for FilteredOptions.
- AttributeUtils.LengthErrorsSpec: lengths count Unicode scalar values, where `.length` counts UTF-16 code units; a text with characters outside the Basic Multilingual Plane gets different min/max length verdicts.
- BaseApi.FirstTwo: `substring(0, 2)` takes two Unicode scalar values here and two UTF-16 code units in JavaScript, so an emoji counts once here and twice there.
- BaseApi.WordInitials: `[0]` takes the first Unicode scalar value, where JavaScript takes the first UTF-16 code unit.
- PhoneEmailField.SetEntry: a value update. The source copies the list shallowly and writes into the shared entry object, so the previous state's entry and the parent's `value.phoneNumbers[i]` change too. A truthy entry that is not an object makes the write throw a `TypeError` in strict mode; the model leaves such an entry unchanged.
- PhoneEmailField.PhoneChangeSpec: states the new list only. The in-place write into the entry object shared with the previous list and the parent value is not modelled, for the reason given for SetEntry.
- PhoneEmailField.EmailChangeSpec: states the new list only, with the same aliasing gap as PhoneChangeSpec.
- PhoneEmailField.PhoneEmailState.HandlePhoneChange: the old list is a separate value, so the mutation of the shared entry object in the previous state is not captured, and neither is the throw on a primitive entry.
- PhoneEmailField.PhoneEmailState.HandleEmailChange: the same aliasing and primitive-entry gap as HandlePhoneChange.
- PhoneEmailField.PhoneEmailState.constructor: a truthy `phoneNumbers` or `emailAddresses` that is not an array is read as `[]`, where `value?.phoneNumbers || []` would keep it.
- CheckboxField.HandleChange: values are compared structurally, where `includes` and `!==` compare objects by reference. A fresh object equal to a selected one counts as selected here and as absent in JavaScript.
- CheckboxField.UncheckRemovesAll: removes every structurally equal value, for the reason given for HandleChange.
- CheckboxField.SelectedOptions: an option is selected when a structurally equal value is in the list, for the reason given for HandleChange.
- TagsField.HandleAddTag: the "already selected" test compares structurally, where `includes` compares objects by reference.
- TagsField.HandleRemoveTag: removes every structurally equal entry, where `!==` compares objects by reference.
- AddressField.InitialAddress: a truthy value that is not an object is replaced by the blank address, where `value || {...}` would keep it.
- NumberField.Clamp: a `min` or `max` of `null` is read as absent. In JavaScript, `value < null` compares with `0`.
- AttributeUtils.RangeErrorsSpec: a `min` or `max` of `null` is read as absent, for the reason given for NumberField.Clamp.
- AttributeUtils.SectionKinds: a `lineType` of `null` is read as absent, though `!== undefined` would count it as present.
- FieldRendererService.GetFieldComponent: tags are looked up in the component table only. A tag naming an inherited object property, such as `constructor`, would find that property in JavaScript.
- UiRendererInit.Session.InitDependsOnMap: a dependent named like an inherited object property, such as `constructor`, would make the source's `push` throw; the model keeps it as an ordinary key.
- CustomAttributes.FillTagNames: an entry that is an array takes no property here, where JavaScript sets the properties on the array object. A truthy primitive entry, such as `"x"`, is left as it is, where the strict-mode assignment at lines 514-515 throws a `TypeError`.
- CustomAttributes.FoundEntry: a truthy primitive entry can be found, because its `customAttributeId` reads as `undefined` and matches an attribute with no `attributeId`. The source then throws on the tag-name write; the model returns the entry unchanged.
- CustomAttributes.UpdateFoundEntry: the update of a truthy primitive entry throws a `TypeError` in the source; here it leaves the entry unchanged, for the reason given for FoundEntry.
- FieldRendererService.PropsOptions: the model keeps only array option lists on the attribute and on `right[0]`. A truthy non-array `attribute.options` or `right[0].options`, such as `"a,b"`, is passed on as the `options` prop by the source; here it reads as absent and the fallback to the next source, or to `[]`, is stated instead.
- TagsField.FilteredOptions: a truthy non-array `attribute.options` makes `fieldOptions.filter` throw in the source; the model reads it as absent and returns no options.
- UiRendererInit.Session.IndexAttributes: an attribute id named like an inherited object property, such as `constructor` or `toString`, makes the source's `attributeSectionsMap[id].push` throw; the model keeps it as an ordinary key.
- UiRendererInit.Session.IndexColumns: the same inherited-property gap as IndexAttributes, for a table column's id.
- UiRendererInit.Session.IndexSection: the same inherited-property gap as IndexAttributes, for both of its pushes.
- UiRendererInit.Session.GetSectionsAttributesAsMap: the same inherited-property gap as IndexAttributes.
- UiRendererInit.Session.PrepareAttributesMap: the same inherited-property gap as IndexAttributes; for such an id the source throws before any table is complete.
- UiRendererInit.IndexedTables: states an owner list for every id, including one named like an inherited property, where the source throws, for the reason given for IndexAttributes.
- UiRendererInit.Session.InitReferenceFieldMap: a reference id named like an inherited object property makes the source's `referenceFieldsMap[id].push` throw; the model groups it as an ordinary key.
- UiRendererInit.PushReferences: the same inherited-property gap as InitReferenceFieldMap.
- UiRendererInit.ReferenceResultGroups: lists attributes under every non-empty reference id, including one named like an inherited property, where the source throws, for the reason given for InitReferenceFieldMap.
- UiRendererInit.ReferenceResultGrouped: the same inherited-property gap as ReferenceResultGroups.
- UiRendererInit.Session.GetValidSections: a truthy `WEB_LAYOUT.sections` that is not an array is read as absent, so nothing changes. The source still resets the addresses and walks the value by its `length`, which gives `[]` for a plain object.
- AdvancedSearchRenderer.BuildSearchCriteria: with a truthy `WEB_LAYOUT.sections` that is not an array, the source's `sections.flatMap` throws once a key is filled, so no search is sent; the model reads the sections as absent and yields no criterion for that key.
- AdvancedSearchRenderer.CriterionForSpec: states "no criterion" for a truthy non-array sections value, where the source throws, for the reason given for BuildSearchCriteria.
- getSectionAttributes is not modelled separately: a section's attribute list is always present in this model, so `section.attributes || []` is the list itself.
- AttributeUtils.SetAttributeValue: a truthy row that is an array is reported as `failed`, with the record unchanged. The source sets the tag name as a named property on the array and does not throw; the value model gives arrays no named properties.
- AttributeUtils.TableWriteFailure: counts a truthy array row as a failed write, for the reason given for SetAttributeValue; only the primitive cases are throws in the source.
- ConfigDataConverter.GetAttributeOptions: a truthy `right[0].options` that is not an array, such as the string `"a,b"`, is returned as it is by the source; the model keeps only array option lists, so it reads as absent and gives `[]`.
- ConfigDataConverter.NoIdTakesRightOptions: a non-array `right[0].options` gives `[]` here, for the reason given for GetAttributeOptions.

## Findings

| source | as written | input that shows it | evidently intended | confidence | as-written member | corrected member |
|---|---|---|---|---|---|---|
| src/shared/services/validationService.js:26-27 | the full pass keys errors by `attributeId`, falling back to `id` with no default, while the mandatory pre-check keys them by `getAttributeId` | a mandatory attribute with neither `attributeId` nor `id`, left empty: it is reported under `''` and again under `"undefined"` | both passes use one key, so each failing attribute appears once and the merged map is the full check's map | not executed | ValidationService.UnnamedReportedTwice | ValidationService.FormErrorsByIdIsFullCheck |
| src/services/api/base-api-service.js:130 | the one-word branch takes the first two characters of the untrimmed name | `" ab"` gives `" A"` | the first two characters of the trimmed name, as the two-word branch already uses, so initials never hold white space | not executed | BaseApi.LeadingSpaceInitial | BaseApi.GetInitialsTrimmed |
