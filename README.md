# Clash subscription merger — a Dafny model of `get_config`

The service serves `/config.yml`, a Clash configuration built from a template and
from several subscriptions. For each request it:

- splits the `SUBS` list on commas, strips every item and skips blank items;
- turns each item into a URL. An item that starts with `https://` or `http://` is
  used as it is; any other item is put in place of `{token}` in the URL template;
- fetches each URL, with the fixed headers `User-Agent: clash` and
  `Accept: application/yaml`;
- takes the dicts that carry a `name` from the `proxies` list of each response;
- derives a label from each name by deleting every match of `\s*\d.+`. A name
  without line breaks has at most one match, and it runs to the end of the name;
- drops the entry when any `IGNORE_LABEL_KEYWORDS` keyword occurs in its label;
- otherwise renames the entry `"<label> <n:03>"`, where `n` is a per-label counter
  shared by all subscriptions of the request;
- makes the accepted entries the document's `proxies`, and appends their names to
  the member list of every proxy group.

The project models that core, `generate_name` and the body of `get_config`, in six
modules:

- `Text`: stripping, splitting, substring search and zero-padded decimals;
- `Labels`: the label rule, and its agreement with the regular expression;
- `Naming`: the `label_count` dictionary as a class;
- `Sources`: the list of subscription items and template substitution;
- `Merge`: what the request loop computes, as functions, with its closed form;
- `Config`: the request loop and the group update, as imperative methods proved
  against `Merge`.

The fetches are replaced by a list of responses, one per requested item, in
request order. A response is either a failed request or a parsed mapping whose
`proxies` key may be missing.

### Behaviour of the code worth knowing

- A name whose only digit is its last character keeps that digit: the `.+` after
  `\d` needs at least one more character. So "HK 1" gets the label "HK 1" and
  is renamed "HK 1 001" (`Labels.LabelExamples`).
- A label is exactly what the regular expression leaves; it is not trimmed
  further.
- Only label keywords exclude entries; no proxy name is excluded by itself.
- A blank keyword excludes everything. An unset `IGNORE_LABEL_KEYWORDS` splits
  to `[""]`, and the empty keyword occurs in every label, so every entry is
  dropped (`Merge.UnsetKeywordsAcceptNothing`). A doubled or a trailing comma
  in the variable does the same.
- Subscriptions are fetched one after another, each once, in list order.

## Model

| member | source | states |
|---|---|---|
| Naming.LabelCount.GenerateName | app.py:20-24 | the count of the label rises by one, starting from 0 for an unseen label; every other label's count is unchanged; the result is the label, a space, and the new count padded to three digits |
| Naming.LabelCount.constructor | app.py:30 | the per-request counter starts empty |
| Naming.DisplayName | app.py:24 | computes `f"{label} {count:03}"`: the label, a space and the padded count |
| Text.ZeroPad3 | app.py:24 | computes `{n:03}`: `str(n)` with zeros in front up to three characters (pinned down by `Text.ZeroPad3Spec`) |
| Naming.DisplayNameInjective | app.py:24 | two generated names are equal only if they have the same label and the same count |
| Naming.FirstDisplayName | app.py:24 | the first name handed out for a label is the label followed by " 001" |
| Naming.DigitTail | app.py:24 | a generated name ends in its digits, with a non-digit (the space) just before them |
| Text.ZeroPad3Spec | app.py:24 | `{n:03}` is all digits, at least three long, exactly `str(n)` when that is longer, and reads back as `n` |
| Text.ZeroPad3Injective | app.py:24 | different counts give different padded strings |
| Text.ZeroPad3Examples | app.py:24 | 1 becomes "001", 42 becomes "042", 1234 becomes "1234" |
| Text.DecimalSpec | app.py:24 | `str(n)` is a non-empty run of digits with no leading zero |
| Text.DecimalRoundTrip | app.py:24 | reading the digits of `str(n)` back gives `n` |
| Text.ZerosValue | app.py:24 | leading zeros do not change the value of a digit string |
| Text.ZerosAreDigits | app.py:24 | padding consists of digits |
| Text.DigitChar | app.py:24 | every digit value renders as a digit character |
| Text.Zeros | app.py:24 | the padding has exactly the requested length |
| Text.Split | app.py:31 | `split(',')` gives at least one piece; no piece contains the separator; joining the pieces with the separator gives the input back |
| Text.SplitJoin | app.py:31 | splitting a join of separator-free pieces gives the pieces back |
| Text.SplitNoSep | app.py:31 | a string without the separator splits into itself alone |
| Text.SplitPrefix | app.py:31 | a leading separator-free piece is split off first |
| Text.SplitAppend | app.py:31 | splitting `a,b` gives the pieces of `a` followed by the pieces of `b` |
| Text.JoinAppend | app.py:31 | joining two lists of pieces equals joining each with a separator in between |
| Text.JoinConsFirst | app.py:31 | a character in front of the first piece is in front of the join |
| Text.Strip | app.py:36 | computes `str.strip()`: leading, then trailing whitespace removed (pinned down by `Text.StripSpec`) |
| Text.TrimStartSpec | app.py:36 | stripping the front removes exactly the leading whitespace run |
| Text.TrimEndSpec | app.py:36 | stripping the end removes exactly the trailing whitespace run |
| Text.StripSpec | app.py:36 | `strip()` gives a contiguous part of the input with only whitespace around it and no whitespace at its ends |
| Text.StripIdempotent | app.py:36 | stripping twice equals stripping once |
| Sources.NonBlank | app.py:35-38 | computes the stripped pieces of a split list, in order, skipping those that strip to nothing |
| Sources.Items | app.py:31-38 | computes the items the loop fetches: the non-blank stripped pieces of `subs.split(',')` |
| Sources.ItemsWithoutComma | app.py:31-38 | a list without a comma is one item, stripped, or no item when it is blank |
| Sources.StripChars | app.py:36 | every character of a stripped item comes from the original piece |
| Sources.NonBlankSpec | app.py:35-38 | every item kept from comma-free pieces is non-empty, has no comma and is already stripped |
| Sources.ItemsSpec | app.py:31-38 | every item the loop fetches is non-empty, comma-free and stripped |
| Sources.NonBlankSnoc | app.py:35-38 | one more piece adds its stripped item at the end, or nothing when it is blank |
| Sources.NonBlankAppend | app.py:35-38 | the items of two lists of pieces are the items of the first followed by those of the second |
| Sources.ItemsAppend | app.py:31-38 | the items of `a,b` are the items of `a` followed by the items of `b`, in order |
| Sources.Format | app.py:39 | computes `template.format(token=item)` for templates whose only fields are `{token}`: every placeholder replaced by the item |
| Sources.Resolve | app.py:39 | an item that starts with `https://` or `http://` is fetched as it is; any other item is put into the template |
| Sources.FormatBraceFree | app.py:39 | a template with no braces formats to itself |
| Sources.FormatPlaceholder | app.py:39 | the placeholder on its own formats to the token |
| Sources.StartsWithAppend | app.py:39 | a prefix of a template stays a prefix when more text follows it |
| Sources.FormatAppend | app.py:39 | formatting a concatenation is the concatenation of the formatted parts |
| Sources.FormatIdentity | app.py:39 | putting `{token}` in for itself gives the template back |
| Text.Contains | app.py:49 | computes `keyword in label` by trying each start position (pinned down by `Text.ContainsSpec`) |
| Text.ContainsSpec | app.py:49 | `keyword in label` holds exactly when the keyword occurs at some position of the label |
| Text.EmptyContained | app.py:49 | the empty keyword occurs in every label |
| Merge.AnyKeywordIn | app.py:49 | computes `any(keyword in label for keyword in keywords)` (pinned down by `Merge.AnyKeywordInSpec`) |
| Merge.ParseKeywords | app.py:12 | `split(',')` of the variable, or of "" when it is unset: at least one keyword, none holding a comma, and joined with commas they give the value back |
| Merge.AnyKeywordInSpec | app.py:49 | a label is excluded exactly when some keyword occurs at some position in it |
| Merge.BlankKeywordExcludesAll | app.py:49 | a blank keyword excludes every label |
| Merge.UnsetKeywordsAreBlank | app.py:12 | an unset keyword variable gives the one keyword "" |
| Merge.UnsetKeywordsAcceptNothing | app.py:12 | with the keyword variable unset, no entry is accepted |
| Labels.Label | app.py:48 | computes `re.sub(r'\s*\d.+', '', name)` as the name up to `CutPoint` (related to the regular expression by `Labels.LabelIsLeftmostMatch`) |
| Labels.CutPoint | app.py:48 | computes where the label ends: the start of the whitespace run before the first digit that has a character after it, or the end of the name |
| Labels.FirstCutDigit | app.py:48 | gives the first digit that has a character after it, or the end of the name when there is none |
| Labels.SpaceRunStart | app.py:48 | gives the start of the maximal whitespace run that ends at the given index |
| Labels.LabelIsLeftmostMatch | app.py:48 | for names without line breaks, the label is the name up to the leftmost match of `\s*\d.+`: there is no match before the cut; the match at the cut can run to the end of the name, so `re.sub` leaves exactly the label; the label is the whole name exactly when the pattern matches nowhere |
| Labels.LabelShape | app.py:48 | the label is a prefix of the name; the whole name when no digit is followed by a character; otherwise the name up to the whitespace run before the first such digit |
| Labels.LabelContent | app.py:48 | a label holds no digit except as its last character; after a cut it holds no digit and does not end in whitespace |
| Labels.LabelIdempotent | app.py:48 | the label of a label is the label itself |
| Labels.LabelExamples | app.py:48 | "HK 12" gives "HK", "HK 1" stays "HK 1", "US 01 Premium" gives "US", "Tokyo" stays "Tokyo" |
| Merge.Step | app.py:46-52 | computes one pass of the inner loop: a named dict whose label holds no keyword gets its label's next count, is renamed and appended; any other entry changes nothing |
| Merge.Run | app.py:46-52 | computes the inner loop over a list of entries, in order, from a given list and counter |
| Merge.Accepted | app.py:35-54 | computes the `proxies` list of one request: the run over all fetched entries, source after source, from an empty list and an empty counter (closed form in `Merge.AcceptedClosedForm`) |
| Merge.Kept | app.py:46-50 | the kept entries are no more than the entries, and each of them is a named dict whose label holds no keyword |
| Merge.KeptMembers | app.py:46-50 | an entry is kept exactly when it is a fetched entry, a dict with a name, and its label holds no keyword |
| Merge.KeptAppend | app.py:46-50 | filtering preserves order and works source by source |
| Merge.OccurrencesAppend | app.py:20-24 | label occurrences add up over concatenation |
| Merge.RunCounts | app.py:46-52 | after the loop, every label's count is the number of kept entries whose original name has that label |
| Merge.OrdinalOfPrefix | app.py:46-52 | appending an entry does not change the position of earlier entries within their label |
| Merge.OrdinalOfLast | app.py:46-52 | a new entry's position within its label is one more than the entries with that label before it |
| Merge.ExtendRenamed | app.py:51-52 | renaming the next kept entry by its position within its label keeps the accepted list in closed form |
| Merge.StepAccepted | app.py:46-52 | one loop step keeps the accepted list in closed form |
| Merge.RunAccepted | app.py:46-52 | after any entries, the accepted list is in closed form |
| Merge.AcceptedClosedForm | app.py:35-54 | the accepted list has one entry per kept entry, in fetch order; entry `i` is kept entry `i` renamed to its label plus its position among kept entries with that label, all other fields unchanged |
| Merge.OrdinalsIncrease | app.py:46-52 | later kept entries with the same label get strictly larger counts, starting at 1 |
| Merge.AcceptedNamesDistinct | app.py:46-52 | no two accepted entries have the same name |
| Merge.RunAppend | app.py:35-54 | processing `a` then `b` is processing `a`, then processing `b` from the state it leaves |
| Merge.FlattenAppend | app.py:35-45 | the entries of two lists of responses are those of the first followed by those of the second |
| Merge.SharedCounterAcrossSources | app.py:30-52 | later subscriptions go on counting from the counts the earlier ones left |
| Merge.FailedSourceSkipped | app.py:40-54 | a failed request changes neither the accepted list nor any count |
| Merge.FlattenOfFailures | app.py:40-54 | failed requests contribute no entries |
| Merge.AllFailedAcceptsNothing | app.py:40-56 | when every request fails, the result has no proxies |
| Merge.DroppedEntryUsesNoCount | app.py:47-50 | an entry that is not kept consumes no count and changes nothing |
| Config.RequestsFor | app.py:32-41 | computes the GETs made for a list of items, in order |
| Config.RequestsForSpec | app.py:32-41 | one GET per item, in item order, for the item itself when it is a URL or for the formatted template otherwise, always with the fixed headers |
| Config.RequestsStep | app.py:39-41 | one more item adds one request at the end |
| Config.NamesOf | app.py:58 | the name list has one name per accepted entry, in order |
| Config.ProxyGroup.constructor | app.py:57 | a group holds its attributes and its member list |
| Config.Document.constructor | app.py:28-29 | the document holds its attributes, its proxies and its groups |
| Config.NonBlankStep | app.py:35-38 | the items seen after one more piece are those seen before plus the piece's item |
| Config.ItemStep | app.py:35-38 | a blank piece yields no item; any other piece yields the next item in order |
| Config.NextItem | app.py:35-41 | one pass of the source loop: a blank piece is skipped; any other piece is the next item, can be resolved, and adds the request for it |
| Config.RunStep | app.py:41-52 | the state after one more response is the run over that response's entries from the previous state |
| Config.CollectEntries | app.py:46-52 | handling one subscription's entries changes the accepted list and the counter exactly as `Merge.Run` does from the state before |
| Config.FetchOne | app.py:39-54 | the URL requested for a non-blank item is `Resolve` of it; a successful response's entries change the list and the counter exactly as `Merge.Run` does; a failed request changes nothing |
| Config.FetchSources | app.py:30-54 | the requests are one GET per item, in order; the accepted list is exactly `Merge.Accepted` of the responses |
| Config.Assemble | app.py:56-58 | the document's `proxies` becomes the accepted list; every group's member list becomes its old list followed by the accepted names, in order |
| Config.GetConfig | app.py:30-58 | the requests are the GETs for the items; the document's `proxies` is `Merge.Accepted`; every group gains the accepted names at its end |

## Left out

- The Flask application, the `/health` route and the server start-up are not modelled: they are I/O.
- Reading the environment variables is not modelled: they are parameters. So is the start-up `ValueError` for a missing `SUBS` or `SUB_URL_TEMPLATE`. `ParseKeywords` models the keyword variable's split.
- Reading `config.template.yml`, the YAML parsing and `yaml.dump` are not modelled. The document comes in as a `Document` object; a fetched body comes in as a `Response`.
- The HTTP GET and `raise_for_status` are not modelled: the fetch outcomes are a list of responses, one per requested item, in order. Any `RequestException` is `RequestFailed`.
- The error message printed for a failed request is not modelled.
- The paths on which the source crashes are not modelled. The types rule them out. These are: a body that is not a mapping; a `proxies` value that cannot be iterated, such as null or a number, which raises `TypeError` at line 46; a YAML parse error; a non-string `name`; a template without `proxy-groups`; a group without a member list.
- A `proxies` value that is a string or a mapping is iterated; its items are not dicts and are skipped at line 47. The model expresses that case as a list of `Other` entries.
- Config.GetConfig, Config.FetchSources, Config.FetchOne: require every item to be a URL or the template to be a `PlainTemplate`, whose only replacement fields are `{token}`. A field that names anything else, such as `{0}` or `{x}`, makes `str.format` raise, which is a crash path. `PlainTemplate` also excludes templates that Python does format: fields on `token` with a conversion, a format spec or an index (`{token!r}`, `{token:>8}`, `{token[0]}`), and escaped braces (`{{`, `}}`). The model does not cover those templates.
- Config.GetConfig, Config.Assemble: require the groups to be distinct objects. This excludes one group listed twice through a YAML alias (`- *g`), whose member list line 58 would extend twice. It also stands for two groups that share one member list through an anchor. `ProxyGroup.members` is a value, so the model cannot express that sharing at all.
- Renaming a fetched dict is modelled on values, so a dict that appears twice in a `proxies` list through an anchor is not renamed twice as it would be in place.
- Labels.Label: whitespace is the ASCII and Latin-1 set that `str.strip` and `\s` share, and digits are `0`-`9`. Other Unicode whitespace and other Unicode decimal digits are not modelled.
- Labels.LabelIsLeftmostMatch: assumes the name contains no line break. `.` does not match `\n`, so `re.sub` could match several times within such a name. `Label` applies the same cut rule to every name.
- Integer width is not an issue: Python integers are unbounded, and so are the model's.
