# The Units leasing backend, modelled in Dafny

The Units is a Chalice (AWS Lambda) backend for leasing. Landlords list and
create leases, have the Bluemoon forms provider send lease documents for
e-signature, and execute a lease once every resident has signed. This project
models the parts of it that hold logic and proves properties of them:

- **Status derivation** (`Models`, from `chalicelib/models.py`). `StatusEnum`
  and its values are modelled, and so is the `pending` default of a new
  `LeaseEsignature`. `transition_status` is a method on a `LeaseEsignature`
  class whose loop over the provider's signer records is proved against a
  specification, `Derivation`. Lemmas then prove what the derivation means:
  - the last owner entry decides `executed`;
  - owners are never counted as residents;
  - an empty list gives `signed`, and `pending` is never produced;
  - the order of the residents does not matter.
- **The reconcile step and the handlers** (`App`, from `app.py`). Both the
  execute poll and the provider webhook do the same reconcile step:
  - store the payload;
  - read `esign.data.signers.data`;
  - re-derive the status, keeping it on a KeyError.

  This is one method (`Reconcile`) that both handlers call, so the same payload
  gives the same status on either path. `Reconcile` is the in-memory step; a
  handler keeps its effect only when no exception escapes before
  `session.commit()`, and otherwise restores the record, since the request's
  session is dropped uncommitted. Also modelled: `lease_execute`, with
  its validation, owner-scoped lookup, provider-error answer and the gate that
  calls execute only on `signed`; and the webhook with its `"data"` guard. The
  owner-scoped lookups are functions over the tables.
- **The query engine** (`Utils`, from `chalicelib/utils.py`). `ModelFilter` is
  a class whose `query` field holds the query as data: a model, a conjunction
  of predicate values, and sort keys. Each step rebuilds it:
  - `filtering` (a loop over the parameters, proved against `Filtered`);
  - `ordering`;
  - `paginate`, with the `Page` metadata.

  Running the query is left to two functions the caller supplies (`fetch` and
  `count`). `get_token` and `forms_mapper` are functions.
- **Schemas** (`Schemas`, from `chalicelib/schemas.py`):
  - the status name codec;
  - the `SmartNested` foreign-key fallback;
  - the field rules of `ExecuteSchema`.

Python's behaviour is written out where the code relies on it:
- `Runtime` has `None`, the exceptions raised or caught, and a `Result` for an
  evaluation that raises.
- `Json` has decoded request bodies, subscripting (KeyError versus TypeError),
  `in` and truthiness.
- `Strings` has `find`, `split` with a separator, `rstrip` of one character,
  and `int()` of a string, with its whitespace, sign and underscores.

Five behaviours of the code, each kept by the model:
- `transition_status([])` sets `signed`; no payload ever yields `pending`.
- The less-than filter operator is spelled `ls`; there is no `lt`.
- LIKE values are embedded unescaped, so `%` and `_` in a value are wildcards.
- A non-integer value for `ge`/`gt`/`le`/`ls` raises ValueError; the parameter
  is not skipped.
- The owner flag comes from the last owner entry, not from any owner entry.

## Model

| member | source | states |
|---|---|---|
| `Models.StatusOfValue` | chalicelib/models.py:20-24 | `StatusEnum(v)` succeeds exactly for 1..4, gives the member with that value, and raises ValueError otherwise |
| `Models.StatusValueRoundTrip` | chalicelib/models.py:20-24 | every member is recovered from its value, and distinct members have distinct values |
| `Models.LeaseEsignature.constructor` | chalicelib/models.py:53-61 | a new committed record keeps its ids and payload, and its status is the column default `pending` |
| `Models.LeaseEsignature.TransitionStatus` | chalicelib/models.py:66-90 | the loop raises exactly when `Derivation` does, with the same exception and the status untouched; otherwise the new status is `Derivation(signers_data)` |
| `Models.ParseSigner` | chalicelib/models.py:75-80 | reading an entry succeeds exactly for a dict with both `identifier` and `completed`; a non-dict raises TypeError and a missing key KeyError |
| `Models.ParseSigners` | chalicelib/models.py:74-81 | reading the entries succeeds exactly when every entry reads, yields one signer per entry in order, and raises only KeyError or TypeError |
| `Models.ParseSignersStep` | chalicelib/models.py:74-81 | reading one more entry extends what was read, and the counters move as the loop body moves them |
| `Models.ParseSignersStopsAt` | chalicelib/models.py:74-81 | the first unreadable entry's exception is the exception of the whole read |
| `Models.Entries` | chalicelib/models.py:74 | the loop visits a list's items, a string's characters (each a one-character str) or, for an empty dict, nothing; any other value, a non-empty dict included, raises TypeError |
| `Models.Count` | chalicelib/models.py:71-82 | after the loop, no more residents have completed than were counted, and no more were counted than there are entries |
| `Models.Derive` | chalicelib/models.py:83-90 | the status assigned after the loop is never `pending`: the `else` branch is dead, since a resident count that differs from the completed count is never zero |
| `Models.Derivation` | chalicelib/models.py:66-90 | deriving from any payload raises only KeyError or TypeError |
| `Models.DerivationOfStrAndEmptyDict` | chalicelib/models.py:74-86 | a str of signers raises TypeError at its first character's `["identifier"]`, while an empty str or an empty dict visits nothing and derives `signed` |
| `Models.CompletedConcat` | chalicelib/models.py:79-81 | the completed entries of a concatenation are the completed entries of each part, in order |
| `Models.CompletedBounds` | chalicelib/models.py:79-86 | at most all entries have completed, and all have exactly when each one has |
| `Models.CountMeaning` | chalicelib/models.py:71-82 | `signers` is the number of non-owner entries, `signed` the number of those that completed, and the owner flag is true exactly when the last owner entry completed |
| `Models.DeriveExecuted` | chalicelib/models.py:73-84 | the status is `executed` if and only if the last owner entry has completed, whatever the residents' state |
| `Models.DeriveSigned` | chalicelib/models.py:85-86 | the status is `signed` if and only if it is not executed and every resident has completed |
| `Models.DeriveProcessing` | chalicelib/models.py:87-88 | the status is `processing` if and only if it is not executed and some resident has not completed |
| `Models.DeriveEmpty` | chalicelib/models.py:71-86 | an empty signer list yields `signed` |
| `Models.CompletedPermutation` | chalicelib/models.py:79-81 | lists that are permutations of each other have equally many completed entries |
| `Models.DeriveIgnoresResidentOrder` | chalicelib/models.py:71-88 | two lists with the same residents in any order and the same last-owner outcome derive the same status |
| `Models.SnapshotScenario` | chalicelib/models.py:66-90 | two completed residents beside an owner who has not completed give `signed`; the owner completing afterwards gives `executed` |
| `Json.Truthy` | app.py:266 | a value is falsy exactly when it is None, `False`, `0`, `""`, `[]` or `{}` |
| `Json.Get` | app.py:269 | `j[key]` succeeds exactly on a dict holding `key`, with that entry; a dict without it raises KeyError, any other value TypeError |
| `Json.Contains` | app.py:330 | `key in j` raises TypeError exactly on None, a bool or a number, and on a dict it holds exactly when `j[key]` succeeds |
| `Json.GetPath` | app.py:272 | a chain of subscripts raises only KeyError or TypeError |
| `Json.GetPathOutcome` | app.py:271-275 | a keyed path lookup succeeds exactly when every step is a dict holding the next key, and otherwise raises only KeyError or TypeError |
| `Json.GetPathConcat` | app.py:272 | looking a path up in two steps is looking it up at once |
| `Strings.Split` | chalicelib/utils.py:13 | `str.split(sep)` gives at least one piece |
| `Strings.RStrip` | chalicelib/schemas.py:10 | `rstrip(c)` never lengthens the text, and what it returns does not end in `c` |
| `Strings.ParseInt` | chalicelib/utils.py:89-98 | `int()` of blank text raises (None), and a negative result comes only from text whose stripped form starts with `-` |
| `Strings.Find` | chalicelib/utils.py:13 | the index found is the first occurrence at or after the start, and there is none before it |
| `Strings.SplitJoin` | chalicelib/utils.py:13 | splitting loses nothing: rejoining the pieces with the separator gives the string back |
| `Strings.SplitPiecesFree` | chalicelib/utils.py:13 | no piece of a split contains the separator |
| `Strings.SplitCharCount` | chalicelib/utils.py:136 | a split on one character has one piece more than the character's occurrences |
| `Strings.SplitCharPair` | chalicelib/utils.py:136 | `(a + c + b).split(c)` is `[a, b]` when neither side holds `c` |
| `Strings.RStripShape` | chalicelib/schemas.py:10 | `rstrip(c)` keeps a prefix that does not end in `c`, and everything it removed was `c` |
| `Strings.ParseIntRoundTrip` | chalicelib/utils.py:89-98 | `int(str(n)) == n` for every integer |
| `Schemas.StatusName` | chalicelib/schemas.py:25-26 | a member's name is one of the four member names |
| `Schemas.GetStatus` | chalicelib/schemas.py:25-26 | `get_status` dumps a record's status as a member name |
| `Schemas.LoadStatus` | chalicelib/schemas.py:28-32 | loading succeeds exactly for a member name and gives the member with that name; any other text gives None |
| `Schemas.StatusNameRoundTrip` | chalicelib/schemas.py:25-32 | `load_status(get_status(r)) == r.status`, and names identify members |
| `Schemas.LoadStatusAsWritten` | chalicelib/schemas.py:28-32 | a value that is not a str raises TypeError, which escapes the `except AttributeError`; for a str the `getattr` lookup yields a member exactly for member names, agreeing with `LoadStatus` there |
| `Schemas.LoadStatusAcceptsClassAttributes` | chalicelib/schemas.py:28-32 | `"__name__"` is no member name, yet the `getattr` lookup returns a class attribute for the str `"__name__"` instead of None |
| `Schemas.ForeignKeyName` | chalicelib/schemas.py:10 | the derived key always ends in `_id` |
| `Schemas.ForeignKeyNameShape` | chalicelib/schemas.py:9-10 | the fallback key is the attribute with all its trailing `s` removed, followed by `_id` |
| `Schemas.ForeignKeyNameExamples` | chalicelib/schemas.py:10 | `leases` reads `lease_id`, and `status` reads `statu_id` |
| `Schemas.ToInt` | chalicelib/schemas.py:10 | `int(v)` succeeds exactly for an int, a bool, or a str that reads as an integer; an int is kept; a bad str raises ValueError and any other value TypeError |
| `Schemas.SmartNestedSerialize` | chalicelib/schemas.py:8-11 | a loaded relation is serialized normally; otherwise the result is `{"id": int(<key>)}` read from the derived key, and AttributeError when the object lacks it |
| `Schemas.LoadExecute` | chalicelib/schemas.py:63-70 | the body loads exactly when it is a dict holding only known fields, with str `name`, str `initials` of at most 3 characters and an optional str `title`; it then yields those values; a missing `name` or `initials` gives its own message; a non-dict is refused under `_schema` |
| `Utils.GetToken` | chalicelib/utils.py:11-15 | None when the header is absent or holds no "Bearer "; otherwise the token is the text after the first "Bearer " up to the next one or the end, and holds no "Bearer " |
| `Utils.SplitSecond` | chalicelib/utils.py:13 | the second piece of a split on "Bearer " exists exactly when the header holds one, and runs to the next occurrence |
| `Utils.GetTokenOfBearer` | chalicelib/utils.py:11-15 | the header "Bearer t" yields `t` when `t` holds no "Bearer " |
| `Utils.Selections` | chalicelib/utils.py:39-48 | the selectable names of a type are exactly the names of the offered forms of that type |
| `Utils.Keep` | chalicelib/utils.py:49-54 | the comprehension returns no more names than were selected, each both selected and selectable |
| `Utils.KeepCounts` | chalicelib/utils.py:49-54 | the comprehension keeps every occurrence of a selectable name and nothing else |
| `Utils.KeepConcat` | chalicelib/utils.py:49-54 | the comprehension preserves order: it distributes over concatenation |
| `Utils.FormsMapper` | chalicelib/utils.py:33-55 | an empty forms list raises MissingLeaseForms before anything else; a missing selection raises TypeError; otherwise each list keeps the selected names offered with its type, with their multiplicities |
| `Utils.FormOfBothTypes` | chalicelib/utils.py:39-55 | a selected name offered as both standard and custom lands in both lists |
| `Utils.CeilDiv` | chalicelib/utils.py:71 | the result is the ceiling of `a / b` for either sign of `b` |
| `Utils.NoRowsNoPages` | chalicelib/utils.py:71 | zero rows make zero pages |
| `Utils.Page.constructor` | chalicelib/utils.py:59-71 | `has_previous` is `page > 1`, with `previous_page` then `page - 1`, else None; `has_next` is `(page-1)*page_size + len(items) < total`, with `next_page` then `page + 1`; `pages` is the ceiling of `total / page_size` |
| `Utils.IsPage` | chalicelib/utils.py:59-71 | a page as `Page.__init__` builds it has `previous_page` exactly when `has_previous`, and `next_page` exactly when `has_next` |
| `Utils.Window` | chalicelib/utils.py:99 | at most `limit` rows, namely those from `offset` on, or none past the end |
| `Utils.HasNextIffBeforeLastPage` | chalicelib/utils.py:66-71 | when the items are the page's window over all rows, `has_next` holds exactly when the page comes before the last one |
| `Utils.Lookup` | chalicelib/utils.py:90 | `params.get(key)` finds a value exactly when some pair has that key, and the value is that pair's |
| `Utils.OperatorStep` | chalicelib/utils.py:141-184 | an operator outside the table adds nothing; a clause is built on the parameter's field; only `ge`/`gt`/`le`/`ls` with a non-integer value fail, with ValueError |
| `Utils.ParamStep` | chalicelib/utils.py:131-140 | a field outside the whitelist is skipped; a clause is added only for a whitelisted field the model has; failures are AttributeError or ValueError |
| `Utils.Next` | chalicelib/utils.py:131-184 | one step keeps the model and the sort; it raises when the query so far raised or the step fails, and otherwise appends the step's clause, if any, to the clauses so far |
| `Utils.ApplyParams` | chalicelib/utils.py:131-184 | the loop over the parameters raises only AttributeError or ValueError |
| `Utils.Owned` | chalicelib/utils.py:128-129 | on a model with `user_id`, exactly one clause `user_id == principal` is appended; otherwise the query is unchanged |
| `Utils.Filtered` | chalicelib/utils.py:122-185 | filtering raises only AttributeError (a whitelisted field the model lacks) or ValueError (a non-integer comparison value) |
| `Utils.ApplyParamsStep` | chalicelib/utils.py:131-185 | one more loop iteration is one more step on the query so far |
| `Utils.ApplyParamsConcat` | chalicelib/utils.py:131-185 | filtering two runs of parameters in turn is filtering them at once |
| `Utils.ApplyParamsStopsAt` | chalicelib/utils.py:131-185 | the first failing parameter's exception is the exception of the whole filtering |
| `Utils.SkippedParamIsInert` | chalicelib/utils.py:131-138 | a skipped parameter can be dropped wherever it sits without changing the result |
| `Utils.ApplyParamsShape` | chalicelib/utils.py:131-185 | filtering succeeds exactly when no step fails; it keeps the model, the sort and the existing clauses, and every added clause is the clause of some parameter |
| `Utils.OwnerClauseFirst` | chalicelib/utils.py:124-129 | on a model with `user_id`, the clause `user_id == principal` comes right after any prior clauses and survives every parameter |
| `Utils.OperatorTable` | chalicelib/utils.py:135-184 | a whitelisted model field with value `v:op` (no `:` in either part) gets exactly the operator table's clause |
| `Utils.ColonCountDecides` | chalicelib/utils.py:135-138 | a value with no `:` or with several is skipped |
| `Utils.NoLtOperator` | chalicelib/utils.py:165-175 | `v:lt` is skipped, while `v:ls` with an integer `v` adds `field < v` |
| `Utils.SortDirection` | chalicelib/utils.py:105-107 | the direction is the `order_dir` parameter when it is `asc` or `desc`, else `default_dir` |
| `Utils.SortField` | chalicelib/utils.py:109-111 | the sort field is the `order_by` parameter when it is whitelisted, else `default_order` |
| `Utils.Ordered` | chalicelib/utils.py:113-120 | ordering keeps the clauses, adds no key when the model lacks the field, and otherwise adds one key that is descending exactly for `desc` |
| `Utils.PageSize` | chalicelib/utils.py:88-93 | a page size other than `default_page_size` is the integer the `page_size` parameter reads as |
| `Utils.PageNumber` | chalicelib/utils.py:95-98 | a page other than 1 is the integer the `page` parameter reads as |
| `Utils.PageSizeParam` | chalicelib/utils.py:88-93 | a page size written as an integer is that integer; an absent or non-integer one is `default_page_size` |
| `Utils.PageNumberParam` | chalicelib/utils.py:95-98 | a page written as an integer is that integer; an absent or non-integer one is 1 |
| `Utils.ModelFilter.constructor` | chalicelib/utils.py:77-84 | absent or empty parameters become no parameters, and there is no query yet |
| `Utils.ModelFilter.Filtering` | chalicelib/utils.py:122-185 | the loop raises exactly when `Filtered` does, with the stored query untouched; otherwise the stored query is `Filtered` of the old one |
| `Utils.ModelFilter.Ordering` | chalicelib/utils.py:103-120 | the stored query becomes `Ordered` of the old one |
| `Utils.ModelFilter.Paginate` | chalicelib/utils.py:86-101 | the items are fetched with `limit = page_size` and `offset = (page-1)*page_size`, then the total is counted without the sort; a refusal of either escapes, in that order; then a zero page size raises ZeroDivisionError; otherwise the page holds those items and total, `has_previous`/`previous_page`, `has_next`/`next_page` and `pages` as Page.__init__ sets them |
| `Utils.ModelFilter.Results` | chalicelib/utils.py:187-193 | a filtering exception escapes with the unfiltered query stored; otherwise the stored query is filtered and ordered, and the outcome is the page of that query with every field, or the fetch, count or ZeroDivisionError exception, exactly as `Paginate` states |
| `Utils.LeaseListingDefaults` | app.py:95-104 | the `/leases` listing without parameters keeps only the principal's leases, sorts by `id` descending, and reads page 1 with 25 to a page |
| `App.StripBearer` | app.py:40-41 | a token starting with "Bearer " becomes what `get_token` would give, the text up to any next "Bearer "; any other token is kept |
| `App.StripBearerOfBearer` | app.py:40-41 | the token "Bearer t" becomes `t` when `t` holds no "Bearer " |
| `App.FindOwnedLease` | app.py:117-120 | a lease is returned only when its id and its owner match, and None exactly when no lease matches both |
| `App.FindOwnedLeaseSeesOnlyOwn` | app.py:118-120 | the lookup depends only on the principal's own leases |
| `App.FindOwnedEsignature` | app.py:256-261 | an esignature is returned, with its lease, only when its id matches and its lease is the principal's; None exactly when no such pair exists |
| `App.FindByBluemoonId` | app.py:335-338 | the webhook lookup returns a record whose provider id equals the payload's integer id, or whose provider id is NULL when the payload's id is null (`IS NULL`); None exactly when no record matches |
| `App.Reconciled` | app.py:269-277 | only a TypeError can escape the reconcile step |
| `App.Reconcile` | app.py:269-275 | the in-memory step: the payload is assigned; the status becomes `Reconciled(old status, payload)`, or stays when an exception escapes (the handlers commit it only when none does) |
| `App.MissingKeyKeepsStatus` | app.py:271-275 | a missing key on the signer path keeps the status |
| `App.ReconcileForgetsPriorStatus` | app.py:271-275 | with readable signer records, the new status is their derivation, whatever the old status was |
| `App.ReconcileIdempotent` | app.py:269-277 | reconciling again with the same payload changes nothing |
| `App.StatusCanMoveBackward` | app.py:340-345 | a `signed` record receiving a payload with an incomplete resident becomes `processing` |
| `App.ExecuteSuccess` | app.py:289 | the reported success is truthy exactly when the response is a dict with a truthy `"executed"` |
| `App.LeaseExecute` | app.py:242-291 | invalid body: 200 with the errors. No owned esignature: 404 "Not Found". Falsy details: 500. Details without `data`, or a reconcile that raises: the exception escapes and no record changes. Otherwise the payload is stored and the status reconciled; a status other than `signed` gives the 404 "not signed by all residents"; `signed`, and only `signed`, calls execute with the lease's provider id, and the reply is 200 with `success` as read from the response, or the exception reading it raises. Other records are unchanged |
| `App.Notifications` | app.py:328-348 | a body without `"data"` gives 405; a body, `data` or `data.id` that cannot be read, an id no record has (AttributeError on None) or a reconcile that raises lets the exception escape; in all of these no record changes. Otherwise the record named by `data.id` stores the payload and holds the reconciled status, and the reply is 200; no other record changes |

## Left out

- chalicelib/bluemoon_api.py is not part of this model. It is an HTTP client.
  Its answers are parameters here: `details` and `executeResponse` in
  `LeaseExecute`, and the forms list in `FormsMapper`.
- Running SQL is not modelled. A query is a value; `fetch` and `count` in
  `Paginate` and `Results` stand for `.limit().offset().all()` and `.count()`.
  `session.add` and `commit` are the in-place updates of the records; a
  handler that raises before `commit` leaves them as they were. The
  routes' row order for `.first()` is the order of the table sequence.
- Which rows a predicate matches is not modelled, LIKE included. Filtering is
  stated on the predicates it builds.
- gzip and JSON encoding of responses (chalicelib/utils.py:18-30) are not
  modelled. A reply is a status code and a JSON value. An exception that
  escapes a handler is `Unhandled`, not Chalice's 500 response.
- These flows are not modelled beyond their owner-scoped lookup: the login,
  index, configuration and logout routes; the lease create and update; the
  esignature request; and the PDF streaming with its S3 upload. Their logic is
  provider calls, I/O and hard-coded data.
- Concurrency is not modelled, including the last-write-wins race between the
  poll and the webhook.
- JSON numbers are integers; floats are not modelled. `int()` accepts only
  ASCII whitespace and decimal digits.
- Utils.CeilDiv: `pages` is computed with exact integer ceiling division.
  The source's float division can round for totals beyond 2^53.
- Utils.ModelFilter.Paginate: `fetch` and `count` stand for the database.
  Whether it refuses a negative LIMIT or OFFSET (`?page=0`, a negative
  `page_size`) is their answer, passed in; the model does not decide it.
- Utils.FormsMapper: each provider form is a record with a `name` and a
  `type`. A form entry that is not a dict or lacks either key raises in
  `forms_mapper`; that KeyError/TypeError is not modelled.
- App.FindByBluemoonId: the lookup matches an integer payload id against the
  record's provider id, and a null payload id against a NULL provider id. A
  database comparison that coerces a string such as `"42"` or a boolean is not
  modelled; such an id matches no record.
- Utils.FormsMapper: the selection is a list of JSON values or None. A
  `forms` value that is a string, dict or number is not modelled.
- Utils.ModelFilter.Filtering: it requires a query to be present, as
  `results` guarantees. A call on an unset (None) query is not modelled.
- Utils.Lookup: parameters are pairs in iteration order. A dict has distinct
  keys, so the first pair with a key is its value.
- Models.Entries: a non-empty dict of signers raises TypeError at once. The
  dict's keys, which the loop would visit in order, are not modelled, since
  the first key already raises that TypeError.
- Schemas.LoadExecute: each offending field carries one message, the first
  marshmallow reports. Its other messages are not modelled.
- Schemas.SmartNestedSerialize: the serialization of a loaded relation is
  passed in as a value.
- Schemas.LoadStatus: the corrected loader takes the text of a name. A
  value that is not a str, which the code as written lets raise TypeError
  (`LoadStatusAsWritten`), is outside its domain.
- Schemas.LoadStatusAsWritten: a null status is refused by marshmallow
  ("Field may not be null.") before load_status runs; the TypeError the
  function gives for `Null` stands for a call that does not happen.
- App.FindOwnedLease, App.FindOwnedEsignature: the route's id and the
  principal id are integers here. In the source they reach SQL as text,
  which the database coerces; that coercion is not modelled.
- Schemas.LoadStatusAsWritten: the enum class attributes are a
  representative set, not Python's full list.

## Findings

| source | as written | input that shows it | evidently intended | confidence | as-written member | corrected member |
|---|---|---|---|---|---|---|
| chalicelib/schemas.py:28-32 | `load_status` resolves the name with `getattr` on the enum class, so every class attribute passes, not only member names | `load_status("__name__")` returns the string `"StatusEnum"` instead of None | only the four member names load, and any other text gives None | medium, not executed | `Schemas.LoadStatusAsWritten`, `Schemas.LoadStatusAcceptsClassAttributes` | `Schemas.LoadStatus`, `Schemas.StatusNameRoundTrip` |
