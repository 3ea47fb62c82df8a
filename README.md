# AWS CloudWatch crontab filters, modelled in Dafny

This project models the Ansible filter plugin `filter_plugins/local_utc_crontab.py`, which
converts between AWS CloudWatch cron expressions and standard crontabs:

- `aws_to_standard_cron` (the *downgrade*) takes a 6-field AWS crontab
  (`minute hour day month weekday year`). It drops the year and turns every `?` field into `*`.
  It returns the 5-field crontab together with the side data needed to undo this: the year,
  and the role names of the fields that held `?`.
- `standard_to_aws_cron` (the *upgrade*) takes a 5-field crontab and that side data. It turns
  `*` back into `?` for the listed roles and appends the year.
- `aws_local_cron_to_aws_utc_crons` (the *expander*) downgrades a crontab written in a local
  timezone. It hands the result to the external `local_crontab` converter, which returns one
  UTC crontab per DST period, and then upgrades each result with the side data from the one
  downgrade.

Modules:

- `Tokens` (`tokens.dfy`) models the Python built-ins the filters use:
  - `str.strip().split()` is `Split`, the maximal runs of non-whitespace characters;
  - `" ".join` is `Join`;
  - `list.index` is `FirstIndex`.
- `LocalUtcCrontab` (`local_utc_crontab.dfy`) holds:
  - the role table `RoleNames` and the records `AwsSpecificDetails` and `ConvertedCronFromAws`;
  - the two filters, as methods that follow the source loops step by step. Each loop walks
    the live list and finds its target with a value search (`list.index`);
  - the closed-form functions `Downgrade` and `Upgrade`, which each method is proved equal to;
  - the expander, as a function of the downgrade, the upgrade and a converter parameter.
- `CrontabProperties` (`crontab_properties.dfy`) holds the properties of the filters and the
  round-trip analysis.

What the code does, as opposed to what its header comment (lines 11-12) promises:

- **The downgrade is positional.** `index("?")` always returns the current position, because
  every earlier `?` has already been overwritten with `*`. So several `?` fields are recorded
  correctly. The model follows the code here, and `AwsToStandardCron` proves it.
- **The upgrade is not positional.** `index('*')` returns the first `*` still present. Once
  that `*` has an unlisted role, every later `*` resolves to it, so no later `*` is restored.
  `UpgradedFieldsAsWritten` gives the exact outcome: a `*` becomes `?` exactly when every `*`
  at or before it has a listed role.
- **The round trip therefore holds only sometimes.** It holds exactly when no `*` comes
  before a `?` among the first five fields.
- **The corrected upgrade.** `UpgradeIntended` takes each field's role from its own position.
  It always undoes the downgrade. It agrees with the code exactly when no `*` with an unlisted
  role precedes one with a listed role.
- **The expander keeps the code's upgrade.** The corrected one is the specification the code
  is measured against.

Other modelling choices:

- `.replace("*", "?")` is applied only to a field that is exactly `*`, so the method assigns
  `"?"` directly.
- `str(year)` is the identity on the string year.
- The converter is a parameter of type `UtcConverter`: a total function from
  (crontab, timezone) to either a failure message or a list of crontab strings.

## Model

| member | source | states |
|---|---|---|
| Tokens.Split | filter_plugins/local_utc_crontab.py:47 | every field produced by `strip().split()` is non-empty and has no whitespace |
| Tokens.SplitJoin | filter_plugins/local_utc_crontab.py:80 | splitting the `" ".join` of fields gives the same fields back, so a downgraded crontab re-splits into the fields the downgrade produced |
| Tokens.Join | filter_plugins/local_utc_crontab.py:62 | `" ".join` of a non-empty list starts with its first field; `SplitJoin` is its inverse on whitespace-free fields |
| Tokens.JoinInjective | filter_plugins/local_utc_crontab.py:92 | two lists of whitespace-free fields that `" ".join` to the same string are the same list, so comparing joined crontabs compares their fields |
| Tokens.FirstIndex | filter_plugins/local_utc_crontab.py:58 | `list.index` returns a position holding the value with no earlier occurrence |
| LocalUtcCrontab.RolePosition | filter_plugins/local_utc_crontab.py:25 | every role name of `cron_part_index_tuple` has a position in the table, and the table holds that name there |
| CrontabProperties.RoleNamesDistinct | filter_plugins/local_utc_crontab.py:25 | no role name appears twice in `cron_part_index_tuple`, so a role name identifies exactly one position |
| CrontabProperties.DowngradedFieldsReplaceQuestions | filter_plugins/local_utc_crontab.py:55-60 | the five fields the downgrade loop leaves (`DowngradedFields`): one per input field, no `?` left, each `?` turned into `*`, every other field unchanged |
| LocalUtcCrontab.QuestionRoles | filter_plugins/local_utc_crontab.py:54-59 | `question_parts` gets at most one role per scanned position; which roles, and in what order, is stated by `QuestionRolesMembers` and `QuestionRolesOrdered` |
| LocalUtcCrontab.Downgrade | filter_plugins/local_utc_crontab.py:47-50 | the downgrade succeeds iff the input splits into exactly 6 fields, and otherwise fails with the field count; on success the crontab splits into 5 fields |
| LocalUtcCrontab.AwsToStandardCron | filter_plugins/local_utc_crontab.py:38-67 | the source loop (pop the year, value search for each `?`, overwrite with `*`) returns exactly the positional result `Downgrade`: the search always lands on the current position |
| LocalUtcCrontab.DowngradeStep | filter_plugins/local_utc_crontab.py:55-60 | one iteration of the downgrade loop: on a `?`, `index("?")` returns the current position, because every earlier `?` is already `*`; after the iteration one more position is downgraded, and its role is recorded if it held `?` |
| LocalUtcCrontab.DowngradeDone | filter_plugins/local_utc_crontab.py:55-62 | after the fifth iteration the list is `DowngradedFields` of the five fields and `question_parts` is `QuestionRoles` of them |
| CrontabProperties.UpgradedFieldsChangeOnlyListedStars | filter_plugins/local_utc_crontab.py:84-89 | the five fields the upgrade loop leaves (`UpgradedFieldsAsWritten`): one per input field; a field changes only from `*` to `?`, and only for a listed role; once a `*` stays `*`, every later `*` stays `*` as well |
| LocalUtcCrontab.Upgrade | filter_plugins/local_utc_crontab.py:80-82 | the upgrade succeeds iff the crontab splits into exactly 5 fields, and otherwise fails with the field count |
| LocalUtcCrontab.StandardToAwsCron | filter_plugins/local_utc_crontab.py:70-92 | the source loop (value search for the first `*`, role lookup, replace if listed, append the year) returns exactly `Upgrade`, whose fields are the closed form `UpgradedFieldsAsWritten` |
| LocalUtcCrontab.UpgradeStep | filter_plugins/local_utc_crontab.py:85-89 | in one iteration on a `*`, the value search finds a position no later than the current one, and it is the current one whenever its role is listed; so the loop never changes a position after the current one |
| LocalUtcCrontab.UpgradeSearchFinds | filter_plugins/local_utc_crontab.py:85-86 | on a `*` at the current position, `index('*')` finds a position at or before it that held `*` in the input; every earlier input `*` has a listed role; and it finds an earlier position only when an unlisted `*` already stopped the marking there |
| LocalUtcCrontab.UpgradeIntended | filter_plugins/local_utc_crontab.py:84-89 | the corrected positional upgrade fails exactly as the source does on a wrong field count |
| LocalUtcCrontab.UpgradeEach | filter_plugins/local_utc_crontab.py:111 | the list comprehension succeeds iff every element upgrades; the result then has the same length and order, element i being the upgrade of element i; otherwise the error is that of the first element that fails |
| LocalUtcCrontab.AwsLocalCronToAwsUtcCrons | filter_plugins/local_utc_crontab.py:104-112 | a downgrade failure is returned whatever the converter does; a converter failure becomes a filter error with no partial result; otherwise element i is the upgrade of converter output i with the side data of the single downgrade |
| CrontabProperties.QuestionRolesMembers | filter_plugins/local_utc_crontab.py:54-60 | `QuestionRoles`: a role is recorded iff its position held `?`, and only roles of the scanned positions are recorded |
| CrontabProperties.QuestionRolesOrdered | filter_plugins/local_utc_crontab.py:54-60 | recorded roles come in strictly increasing position order, hence without duplicates |
| CrontabProperties.DowngradeFields | filter_plugins/local_utc_crontab.py:52-62 | the standard crontab is the first 5 fields with each `?` turned into `*` and every other field unchanged; the year is the 6th field verbatim, even when it is `?` |
| CrontabProperties.DowngradeQuestionParts | filter_plugins/local_utc_crontab.py:54-65 | `question_parts` holds exactly the roles of positions 0..4 that held `?`, in increasing position order, without duplicates, never `year` |
| CrontabProperties.UpgradeFields | filter_plugins/local_utc_crontab.py:84-92 | the list that is joined has 6 fields and ends with the year, for any year; a field changes only if it is `*` and its role is listed, and then only to `?`; when the year is one whitespace-free token, splitting the result gives that list back |
| CrontabProperties.UpgradeStopsAtFirstUnlistedStar | filter_plugins/local_utc_crontab.py:84-89 | for any year: if the `*` at k is the first with an unlisted role, every earlier `*` becomes `?` in the joined list and nothing from k on changes; when the year is one whitespace-free token, splitting the result gives that list back |
| CrontabProperties.UpgradeIgnoresYearEntry | filter_plugins/local_utc_crontab.py:86-88 | adding `year` to `question_parts` never changes the upgrade |
| CrontabProperties.JoinAppend | filter_plugins/local_utc_crontab.py:91-92 | appending the year and then joining gives the joined fields, a space, and the year |
| CrontabProperties.JoinAppendInjective | filter_plugins/local_utc_crontab.py:91-92 | with the same year appended, two different lists of five whitespace-free fields join to different strings, whatever the year |
| CrontabProperties.AsWrittenAgreesWithIntended | filter_plugins/local_utc_crontab.py:84-89 | the source's upgrade equals the positional one iff no `*` with an unlisted role precedes a `*` with a listed role (or the field count is wrong) |
| CrontabProperties.WrittenFieldsAgreeWithPositional | filter_plugins/local_utc_crontab.py:84-89 | on five fields, the loop's result equals the positional one iff no `*` with an unlisted role precedes a `*` with a listed role |
| CrontabProperties.IntendedRoundTrip | filter_plugins/local_utc_crontab.py:11-12 | the positional upgrade of a downgrade gives back every 6-field crontab field for field |
| CrontabProperties.PositionalUndoesDowngrade | filter_plugins/local_utc_crontab.py:11-12 | giving each `*` the role of its own position restores every five-field list from its downgraded fields and recorded roles |
| CrontabProperties.RoundTripAsWritten | filter_plugins/local_utc_crontab.py:84-91 | the source's upgrade of a downgrade gives back the crontab iff no `*` comes before a `?` among its first five fields |
| CrontabProperties.RoundTripFailsOnCommonForm | filter_plugins/local_utc_crontab.py:84-89 | `0 10 * * ? *` downgrades with `question_parts = ["weekday"]` and upgrades to `0 10 * * * *`, which has different fields |
| CrontabProperties.CommonFormFields | filter_plugins/local_utc_crontab.py:47 | the string `0 10 * * ? *` splits into the six fields of that counterexample |
| CrontabProperties.ExpandedCronsKeepYearAndMarks | filter_plugins/local_utc_crontab.py:104-111 | every UTC crontab of a successful expansion has 6 fields and ends with the local crontab's year; it differs from the converter's output only where a `*` became `?` at a position that held `?` in the local crontab |

## Left out

- The `isinstance(..., string_types)` checks (lines 45-46, 78-79) are not modelled: the inputs are typed as strings.
- The converter's timezone and DST computation (line 106) is an external library. It is the function parameter `toUtcCrons`, about which nothing is assumed.
- The `WrongTimezoneError` branch and the generic `Exception` branch (lines 107-110) raise the same filter error. They are one `ConversionFailed` outcome carrying the converter's message.
- The `FilterModule.filters` registration (lines 116-124) is framework glue and is not modelled.
- The text of the error messages (lines 46, 49-50, 82) is not modelled. A wrong field count keeps the count found and the count expected.
- `Tokens.Split` treats a fixed set of characters as whitespace: the ASCII ones Python's `str.split()` uses (tab through carriage return, 0x1C-0x1F, space) and the Unicode space and separator characters. It does not consult a Unicode database.
- `str(year)` (line 91) is taken as the identity: the side data's year is typed as a string.

## Findings

| source | as written | input that shows it | evidently intended | confidence | as-written member | corrected member |
|---|---|---|---|---|---|---|
| filter_plugins/local_utc_crontab.py:84-89 | the upgrade finds the role of a `*` with `index('*')`, the first `*` still present, so once that `*` has an unlisted role every later `*` stays `*` | `0 10 * * ? *`: downgrades to `0 10 * * *` with `question_parts = ["weekday"]`, then upgrades to `0 10 * * * *` | each `*` takes the role of its own position, so the upgrade undoes the downgrade (header comment, lines 11-12) | high; not executed | CrontabProperties.RoundTripFailsOnCommonForm | CrontabProperties.IntendedRoundTrip |
