# Product service handlers, modelled in Dafny

A model of three pieces of a venue product backend: Express handlers in
front of DynamoDB and S3, written in TypeScript.

- **Upload admission and object naming** (`ProductUpload`, `product_upload.dfy`).
  - The express-validator check admits a file by its size and MIME type.
  - An admitted file gets an extension, a storage key `year/month/day/uuid+ext` and a public URL.
  - `productMenuUpload` runs its steps in a fixed order: the group check, the validation result, the venue lookup, the S3 upload.
- **Validation messages** (`ValidationMessage`, `validation_message.dfy`).
  - `msg` is the table of message templates.
  - `appendValidation` walks a list of rule names over an express-validator chain.
  - The chain is a class: the field it checks, the names it answers to as methods, and the rules applied so far, each with its optional message.
- **Category lookup** (`Categories`, `categories.dfy`): the closed check on the `type` parameter, the query it builds and the reply.

Shared pieces:
- `wrappers.dfy`: `Option`, `Result` and `Outcome`.
- `http.dfy`: the replies a handler produces, either a JSON body with its status or an error passed to `next`.
- `text.dfy`: the JavaScript string operations the handlers rely on.
  - `indexOf` and `replace` with a string pattern, which replace the first occurrence only.
  - The rendering of a number in a template literal.
  - `split`, used only to state that a storage key reads back.

The foreign calls are parameters:
- the uuid and the date;
- the bucket and the table names;
- the outcome of the group check, of the venue lookup, of the S3 upload and of the category query.

Each handler records the calls it issues, so the contracts can state their order and when a call is skipped.

The templates are written as concatenations around the constant `Attribute` (`":attribute"`). A further placeholder such as `:min` is a piece of its own. Each template's characters are those of the table in `utils/validationMessage.ts`.

Two points of `getCategories` worth stating outright:
- It returns the query result as the store gives it; it does not sort it.
- A rejected `type` is answered with HTTP status 200 and a body whose `code` is 500.

## Model

| member | source | states |
|---|---|---|
| Text.IndexOf | utils/validationMessage.ts:44 | the first index where the pattern occurs: a match, with no match earlier; none exactly when the pattern does not occur |
| Text.ReplaceFirst | utils/validationMessage.ts:44 | `replace` with a string pattern leaves a string without the pattern unchanged |
| Text.ReplaceFirstAfter | utils/validationMessage.ts:44 | when the pattern's first character is absent before an occurrence, that occurrence is the first one and only it is replaced; the text before and after, later occurrences included, is kept |
| Text.SpliceContains | utils/validationMessage.ts:44 | text spliced between two pattern-free strings at pattern-free seams is contained in the result, and the result contains the pattern only if the spliced text does |
| Text.ReplaceFirstSplice | utils/validationMessage.ts:44 | replacing the first pattern of `p + pat + q` gives `p + a + q`, which contains `a`, and contains the pattern only if `a` does |
| Text.NatToString | controller/productUploadController.ts:106 | `${n}` for a month or a day: a non-empty run of digits, no leading zero, a single digit exactly below 10 |
| Text.NatToStringRoundTrip | controller/productUploadController.ts:106 | the unpadded numeral reads back as the number |
| Text.IntToString | controller/productUploadController.ts:106 | `${year}`: a non-empty string that starts with `-` exactly when the year is negative, and is otherwise all digits |
| Text.NegativeRoundTrip | controller/productUploadController.ts:106 | a minus sign followed by the numeral of `n` reads back as `-n` |
| Text.IntToStringRoundTrip | controller/productUploadController.ts:106 | the rendered year parses back to the year |
| ProductUpload.ValidateUpload | controller/productUploadController.ts:29-47 | admitted exactly when the file is present, strictly under 5242880 bytes and PNG or JPEG; a missing or oversized file gets the size message whatever its type; the format message exactly for a present, small file of another type; `.png` exactly for PNG, `.jpeg` exactly for JPEG |
| ProductUpload.ValidationErrors | controller/productUploadController.ts:60-62 | `validationResult` is empty exactly when the file is admitted, and otherwise holds the one message the check threw, for field `data` in the body |
| ProductUpload.LimitIsExclusive | controller/productUploadController.ts:31-35 | a file of exactly 5242880 bytes is refused whatever its type, one byte less is admitted |
| ProductUpload.KeyMonth | controller/productUploadController.ts:102 | the month of the key lies in 1..12 |
| ProductUpload.StorageKey | controller/productUploadController.ts:97-106 | the key ends with the file name |
| ProductUpload.ObjectUrl | controller/productUploadController.ts:108 | the URL starts with `https://`, has the expected length and ends with the key |
| ProductUpload.NumeralHasNoSlash | controller/productUploadController.ts:101-106 | a rendered year, month or day holds no `/` |
| ProductUpload.StorageKeySplits | controller/productUploadController.ts:106 | the key splits at `/` into exactly the year, the month, the day and the file name |
| ProductUpload.StorageKeyParses | controller/productUploadController.ts:101-106 | the key reads back as the year, `getMonth() + 1`, the day and the file name, for any file name without `/` |
| ProductUpload.AdmittedObjectNaming | controller/productUploadController.ts:86-108 | an admitted file's extension is `.png` or `.jpeg`, the key ends with it, and the URL ends with the key |
| ProductUpload.ProductMenuUpload | controller/productUploadController.ts:55-132 | the group check comes first; a failed check issues nothing else; a refused file gets 400 with the errors before the venue lookup or any upload; the upload happens exactly when the group check, admission and the venue lookup all pass, with the key for the uuid, the date and the extension, the bucket, `public-read` and the file's type; the reply is 200 with code 200, `success` and the URL exactly when every step succeeds; the `Unknown File.!` branch is unreachable |
| ValidationMessage.MessageFor | utils/validationMessage.ts:42-44 | a rule gets no message exactly when it has no template or an empty one |
| ValidationMessage.TemplateForm | utils/validationMessage.ts:3-36 | every non-empty template has an `:attribute` after text without `:` and before text holding no further `:attribute` |
| ValidationMessage.IsAlphaForm | utils/validationMessage.ts:6 | the `isAlpha` template is placed around its first `:attribute` |
| ValidationMessage.IsAlphanumericForm | utils/validationMessage.ts:7 | the `isAlphanumeric` template is placed around its first `:attribute` |
| ValidationMessage.IsDecimalForm | utils/validationMessage.ts:8 | the `isDecimal` template is placed around its first `:attribute` |
| ValidationMessage.IsEmailForm | utils/validationMessage.ts:9 | the `isEmail` template is placed around its first `:attribute` |
| ValidationMessage.IsFloatForm | utils/validationMessage.ts:10 | the `isFloat` template is placed around its first `:attribute` |
| ValidationMessage.IsInForm | utils/validationMessage.ts:11 | the `isIn` template is placed around its first `:attribute` and is split exactly there, keeping its other placeholder |
| ValidationMessage.IsIntForm | utils/validationMessage.ts:12 | the `isInt` template is placed around its first `:attribute` |
| ValidationMessage.IsIPForm | utils/validationMessage.ts:13 | the `isIP` template is placed around its first `:attribute` |
| ValidationMessage.IsIPv4Form | utils/validationMessage.ts:14 | the `isIPv4` template is placed around its first `:attribute` |
| ValidationMessage.IsIPv6Form | utils/validationMessage.ts:15 | the `isIPv6` template is placed around its first `:attribute` |
| ValidationMessage.IsLowercaseForm | utils/validationMessage.ts:16 | the `isLowercase` template is placed around its first `:attribute` |
| ValidationMessage.IsNullForm | utils/validationMessage.ts:17 | the `isNull` template is placed around its first `:attribute` |
| ValidationMessage.IsNumericForm | utils/validationMessage.ts:18 | the `isNumeric` template is placed around its first `:attribute` |
| ValidationMessage.IsUppercaseForm | utils/validationMessage.ts:19 | the `isUppercase` template is placed around its first `:attribute` |
| ValidationMessage.IsUrlForm | utils/validationMessage.ts:20 | the `isUrl` template is placed around its first `:attribute` |
| ValidationMessage.IsUUIDForm | utils/validationMessage.ts:21 | the `isUUID` template is placed around its first `:attribute` |
| ValidationMessage.NotEmptyForm | utils/validationMessage.ts:24 | the `notEmpty` template is placed around its first `:attribute` |
| ValidationMessage.NotInForm | utils/validationMessage.ts:25 | the `notIn` template is placed around its first `:attribute` |
| ValidationMessage.NotNullForm | utils/validationMessage.ts:26 | the `notNull` template is placed around its first `:attribute` |
| ValidationMessage.ExistForm | utils/validationMessage.ts:29 | the `exist` template is placed around its first `:attribute` and is split exactly there, keeping its other placeholder |
| ValidationMessage.IsBooleanForm | utils/validationMessage.ts:30 | the `isBoolean` template is placed around its first `:attribute` |
| ValidationMessage.IsDateForm | utils/validationMessage.ts:31 | the `isDate` template is placed around its first `:attribute` |
| ValidationMessage.IsLengthForm | utils/validationMessage.ts:32 | the `isLength` template is placed around its first `:attribute` and is split exactly there, keeping its other placeholder |
| ValidationMessage.MatchesForm | utils/validationMessage.ts:33 | the `matches` template is placed around its first `:attribute` and is split exactly there, keeping its other placeholder |
| ValidationMessage.IsStringForm | utils/validationMessage.ts:34 | the `isString` template is placed around its first `:attribute` |
| ValidationMessage.IsArrayForm | utils/validationMessage.ts:35 | the `isArray` template is placed around its first `:attribute` |
| ValidationMessage.PlacedMessage | utils/validationMessage.ts:44 | a template placed around its `:attribute` yields that template with the field name in its place; the message names the field, and holds `:attribute` only if the field name does |
| ValidationMessage.TemplatedMessage | utils/validationMessage.ts:42-45 | every non-empty template contains `:attribute`; its message is the template with only the first one replaced, names the field, and holds `:attribute` only if the field name does |
| ValidationMessage.IsInKeepsInner | utils/validationMessage.ts:11 | the `isIn` message keeps `:inner` as written |
| ValidationMessage.ExistKeepsValue | utils/validationMessage.ts:29 | the `exist` message keeps `:value` as written |
| ValidationMessage.IsLengthKeepsBounds | utils/validationMessage.ts:32 | the `isLength` message keeps `:min` and `:max` as written |
| ValidationMessage.MatchesKeepsPattern | utils/validationMessage.ts:33 | the `matches` message keeps `:matches` as written |
| ValidationMessage.EmptyTemplates | utils/validationMessage.ts:42-43 | the templates that are empty are exactly those of `contains`, `equals`, `len` and `notContains`, and those rules get no message |
| ValidationMessage.ValidationChain.constructor | utils/validationMessage.ts:39 | `body(attr)` is a chain for the field with no rules |
| ValidationMessage.ValidationChain.Apply | utils/validationMessage.ts:42 | applying a rule appends it, with no message, and changes nothing else |
| ValidationMessage.ValidationChain.WithMessage | utils/validationMessage.ts:45 | the message goes to the last rule applied and nothing else changes |
| ValidationMessage.AppendValidation | utils/validationMessage.ts:38-49 | the chain is new, for the field, with the rules the list gives in order; an empty list gives the bare chain |
| ValidationMessage.AppliedRulesAppend | utils/validationMessage.ts:40 | processing two lists one after the other gives the rules of the first followed by those of the second |
| ValidationMessage.AppliedInOrder | utils/validationMessage.ts:40-42 | the names applied are exactly the listed names the chain answers to, in list order, once per occurrence |
| ValidationMessage.AppliedRuleMessages | utils/validationMessage.ts:41-46 | every applied rule is a listed name the chain answers to and carries exactly the message `MessageFor` gives |
| ValidationMessage.SkippedNeverApplied | utils/validationMessage.ts:41 | a name the chain does not answer to is never applied |
| ValidationMessage.AttachedMessagesNameField | utils/validationMessage.ts:44-45 | every attached message names the field, and holds `:attribute` only if the field name does |
| Categories.TypeQuery | controller/categoriesController.ts:30-40 | the query is on the categories table and its type index, and binds `:type`, its only value, to the type |
| Categories.TypeQuerySelects | controller/categoriesController.ts:33-39 | the query's key condition selects attribute `type` equal to the requested type and to no other value |
| Categories.GetCategories | controller/categoriesController.ts:22-48 | no query exactly when the type is not one of the two names (absent included); a rejection replies with status 200, code 500, the fixed message and no data; an accepted type issues exactly its query; the store's result comes back unchanged with code 200 and `success`, its error goes to `next`; code 200 exactly when accepted and the query succeeds |
| Categories.GateIsCaseSensitive | controller/categoriesController.ts:23 | other spellings, an empty or missing type are refused; the two names pass |
| Categories.AcceptedQuerySelectsType | controller/categoriesController.ts:30-42 | an accepted request issues one query, selecting exactly the requested type |

## Left out

- `validateGroup` and the Cognito identity: a foreign library. Its result is a parameter, an identity or the error it throws.
- `validateGroup` might also resolve to no user. Then `user?.email` is undefined, and the model does not represent that.
- The venue lookup (`ddb.get`), the S3 `upload` and the category `ddb.query`: foreign I/O. Each is only the call issued and its outcome.
- The `!findVenueData` guard tests the response object, which is always present. It is modelled as the lookup's outcome, not as a not-found check.
- Multer's temporary file, `fs.readFileSync` and the base64 buffer: file I/O. The upload request omits the file bytes.
- `uuidv4()` and `new Date()`: randomness and the clock. Both are parameters.
- The express-validator internals behind `body`, `chain[v]()` and `withMessage`.
  - Applying a name appends it to the chain with its default message.
  - What a validator, sanitizer or modifier then does to a request is not modelled.
- ValidationMessage.ValidationChain.WithMessage: requires a rule to have been applied. `appendValidation` only calls it right after applying one, so the library's behaviour on a bare chain is not modelled.
- JavaScript `replace` expansion of `$` patterns in the replacement: field names are taken literally.
- Inherited object properties such as `toString`: `msg[v]` is modelled only for the table's own keys.
- The express-validator error entry's `value` field is not modelled. The entry keeps only its location, its field and its message.
- `storeCategory`: an empty stub.
- `controller/productsController.ts`, `route/index.ts` and `serverless.ts`: thin query wrappers, routing and deployment configuration.
  - The routes register `/health-check` after `/:id`. Which route then matches is the framework's business and is not modelled.
- A thrown error is carried as its message string.
