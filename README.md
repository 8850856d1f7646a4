# Form Builder: a Dafny model

A form builder made of two parts:

- **Browser script** (`frontend/assets/app.js`). It keeps a YAML form configuration in an editor. It renders the configuration as a form and collects what the user enters. It assembles a GitHub `repository_dispatch` payload from the configuration, the data and the clock, and posts it to the backend. It also creates, loads, saves and deletes configurations in a registry.
- **Flask backend** (`backend/app.py`). It stores the configurations in a MongoDB `forms` collection, one document per form name. It also proxies the dispatch to GitHub: it validates the request, forwards it, and maps GitHub's status code to its own reply.

## Modules

| file | module | what it models |
|---|---|---|
| `common.dfy` | `Common` | Shared values and string operations (listed below). |
| `schema.dfy` | `Schema` | The decoded configuration: `title`, `description`, the `github` block and the `fields` list. |
| `payload.dfy` | `Payload` | The payload derivation shared by `updatePayload` and `sendPayload`. |
| `collector.dfy` | `Collector` | `getFormData`. The rendered form is a sequence of live controls, folded as `FormData` folds them: a control with an empty name contributes no entry. |
| `renderer.dfy` | `Renderer` | `renderDynamicForm`. Each field becomes a descriptor of the label, input and note that the markup carries. |
| `naming.dfy` | `Naming` | The name check of `createNewForm`, the title derived from the name, and `defaultFormTemplate`. |
| `session.dfy` | `Session` | The editor globals and the handlers that change them, as the class `EditorSession`. Each handler is proved against a pure transition on a `Snapshot`. |
| `registry.dfy` | `Registry` | The `forms` collection and its handlers, as the class `FormRegistry`. Each handler is proved against a pure outcome function. |
| `dispatch.dfy` | `Dispatch` | `github_dispatch`: validation, the call made to GitHub, and the status mapping. It also decodes the browser's request. |

`Common` holds:
- a JSON/YAML value type;
- JavaScript truthiness and `||`;
- the ECMAScript whitespace set and `trim`;
- first-occurrence `replace`;
- decimal and hexadecimal digit strings;
- Python's `in` on a decoded body;
- the handlers' "first missing required field" loop.

### What comes in as a parameter

The model computes nothing that comes from outside. These are inputs:
- **YAML decoding.** The session's `parse` function. The model assumes two facts about it. The empty text decodes to nothing, as `jsyaml.load("")` gives `undefined`. A text made only of whitespace decodes to something without `fields`, since it holds no mapping. Whitespace that YAML does not treat as blank, such as U+00A0, may still decode to a truthy string.
- **User choices.** The answer to the unsaved-changes prompt, and the text typed into the name and token boxes.
- **Network results.** Whether the registry accepted a request, the `yamlContent` a load returned, and the backend's reply to a send.
- **GitHub.** Its status code and text, or that `requests.post` raised.
- **Clocks.** `new Date().toISOString()`, `Date.now()` and each `datetime.utcnow()`. Each is a separate read.
- **ObjectIds.** The ObjectId the insert receives.

### Behaviour worth noting

- **First `.yml` only.** `workflow.replace('.yml', '')` removes the first `.yml` anywhere in the name, not only a suffix. For example, `"a.yml.b.yml"` gives `"a.b.yml"`.
- **Duplicate names fold into lists.** Non-checkbox controls that share a name fold into a list through the `data[key]` test. An earlier `""` is overwritten rather than kept.
- **Checkbox values.** A checkbox field's value is rebuilt from its checked boxes, in document order. This is the field's option order.
- **Date kind.** The free-text date kind is the string `datetime-local`.
- **Unknown kinds.** Every other `type` renders no input.

## Model

| member | source | states |
|---|---|---|
| Common.Or | frontend/assets/app.js:424-425 | `a \|\| b` is `a` exactly when `a` is truthy (`""`, `0`, `false`, `null` and absent are not), else `b`. |
| Common.OrString | frontend/assets/app.js:410-412 | A string property falls back when it is absent or empty, and is kept otherwise. |
| Common.LeadingWhitespace | frontend/assets/app.js:719 | Counts the whitespace characters that start the string. The character after them is not whitespace. |
| Common.TrimStart | frontend/assets/app.js:719 | What is left is a suffix of the input. It does not start with whitespace, and everything cut off is whitespace. |
| Common.TrimEnd | frontend/assets/app.js:719 | What is left is a prefix of the input. It does not end with whitespace, and everything cut off is whitespace. |
| Common.Trim | frontend/assets/app.js:719 | A non-empty result neither starts nor ends with whitespace. |
| Common.TrimIsMiddleSlice | frontend/assets/app.js:462 | `trim()` returns a middle slice of its input, with only whitespace on either side. |
| Common.TrimEmptyIffBlank | frontend/assets/app.js:263 | A text trims to `""` if and only if every character of it is whitespace. |
| Common.IndexOf | frontend/assets/app.js:417 | The result is the first index where the pattern occurs, and no earlier index matches. `None` means it occurs nowhere. |
| Common.ReplaceFirst | frontend/assets/app.js:417 | A string pattern's `replace` changes only its first occurrence. With no occurrence the string is unchanged. |
| Common.Decimal | frontend/assets/app.js:419 | `${n}` of a non-negative integer is a non-empty string of decimal digits. |
| Common.DecimalRoundTrip | frontend/assets/app.js:419 | The decimal string reads back as the number. |
| Common.DecimalInjective | frontend/assets/app.js:419 | Different numbers print differently. |
| Common.HexDigits | backend/app.py:41 | `str(ObjectId)` has exactly the given width, and every character is a lower-case hexadecimal digit. |
| Common.HexRoundTrip | backend/app.py:41 | An id below 16^width reads back from its hexadecimal digits. |
| Common.FirstMissing | backend/app.py:70-72 | `None` if and only if every required field is a key. Otherwise it is the earliest required field that is not a key. |
| Common.PyContains | backend/app.py:153 | Python `in` raises exactly on a value that is not a dict, list or string. On a dict it tests the keys. |
| Common.CheckRequired | backend/app.py:70-72 | The required-field loop with its early returns yields exactly the scan's outcome. |
| Common.ScanRequiredMeaning | backend/app.py:145-147 | On an object body the loop reports exactly the first missing field. It raises only on a body that is not a container. |
| Payload.Underscored | frontend/assets/app.js:412 | Same length as the input. Each `-` or whitespace character becomes `_`, and every other character is kept. |
| Payload.DisplayedEqualsSent | frontend/assets/app.js:485-505 | When the send guard passes, the payload `sendPayload` posts equals the one `updatePayload` displays, for the same configuration, data and clock. |
| Payload.EmptyGitHubFallbacks | frontend/assets/app.js:409-428 | A missing `github` block targets `workflow.yml` in `unknown/unknown`. The automation type is `workflow` and the event type is `workflow_automation`. |
| Payload.FallbackEventTypeFollowsAutomationType | frontend/assets/app.js:412-417 | Without an `event_type`, the event type is the automation type underscored, plus `_automation`. None of its characters is `-` or whitespace. |
| Payload.YmlSuffixStripped | frontend/assets/app.js:417 | A `.yml` suffix is removed when the rest holds no `.yml`. |
| Payload.FirstYmlRemoved | frontend/assets/app.js:417 | The first `.yml` is removed whatever follows it. |
| Payload.AutomationTypeRemovesFirstOccurrence | frontend/assets/app.js:417 | With two `.yml`, only the first goes, so a name that also ends in `.yml` keeps that ending. |
| Payload.DeployProdEventType | frontend/assets/app.js:410-412 | Workflow `deploy-prod.yml` with no event type gives `deploy_prod_automation`. |
| Payload.RequestIdsDiffer | frontend/assets/app.js:419 | `req_<millis>` ids taken at different milliseconds differ. |
| Collector.GetFormData | frontend/assets/app.js:370-401 | The two loops, with early returns and in-place updates, compute exactly the folded entries overlaid with the checkbox lists. |
| Collector.FoldByKey | frontend/assets/app.js:380-390 | The value stored for a key depends only on the values of the entries with that key, in order. |
| Collector.DropLeadingEmpty | frontend/assets/app.js:381-389 | Dropping leading `""` values keeps at least one value. If more than one remains, the first is non-empty. |
| Collector.FoldValuesClosedForm | frontend/assets/app.js:380-390 | Closed form of the folding: empty strings before the first non-empty value are overwritten. A single remaining value is a string, several are a list in entry order. |
| Collector.CollectedPlainKey | frontend/assets/app.js:376-390 | A key that no checkbox field owns holds exactly that closed form of its entries' values. It is absent when there are no entries. |
| Collector.OnlyEntryIsString | frontend/assets/app.js:387-388 | The only entry of a key is stored as a string. |
| Collector.NoEntryNamedEmpty | frontend/assets/app.js:376 | `new FormData(form)` yields no entry under the empty name, whatever the controls. |
| Collector.EmptyNameCollectsNothing | frontend/assets/app.js:376-401 | A control whose name is empty adds nothing: with no checkbox field named `""`, the collected record has no `""` key. |
| Collector.FoldingExamples | frontend/assets/app.js:381-389 | `"", "b"` gives `"b"`. `"a", "b"` gives a list. `"a", "", "c"` keeps the empty string inside the list. |
| Collector.OverlayLookup | frontend/assets/app.js:393-398 | After the checkbox pass, a checkbox field's key holds its checked values. Every other key keeps what the folding stored. |
| Collector.CheckboxKeyHoldsCheckedList | frontend/assets/app.js:393-398 | Every checkbox field's key is present and holds the list of checked values, which is empty when none is checked. This holds whatever the folding stored there. |
| Collector.NothingWithoutConfigOrForm | frontend/assets/app.js:371-374 | With no configuration or no rendered form, the result is `{}`. |
| Collector.LiveGroupValues | frontend/assets/app.js:329-336 | The checked boxes of a rendered group give the ticked option values in option order. |
| Collector.CheckboxValuesInSchemaOrder | frontend/assets/app.js:393-398 | A checkbox field collects its ticked values in schema option order, not in the order they were ticked. |
| Renderer.Attr | frontend/assets/app.js:302-305 | An optional attribute is present exactly when its value is truthy, so `0` and `""` are dropped. When present it carries that value. |
| Renderer.RenderField | frontend/assets/app.js:291-347 | Per kind: free-text kinds give one input of that type, carrying `required` and the field's own `placeholder`, `min`, `max` and `default`, each present only when truthy; a textarea carries `required` and `placeholder` and holds `default` or `""`; a dropdown carries `required` and has the "Select an option" sentinel iff not required, then every option in order, selected iff `default === value`; a checkbox field gives one unchecked box per option, all with the field's name and the id `<name>_<value>`; an unknown kind has no input. Label, `required` and note are kept in every case. A dropdown or checkbox without options throws. |
| Renderer.RenderAll | frontend/assets/app.js:291-347 | All fields render, in order, if and only if none throws. |
| Renderer.FormFor | frontend/assets/app.js:281-354 | The heading falls back to "Dynamic Form". The description appears iff it is truthy. The submit caption uses the raw title. The fields are the rendered fields. |
| Renderer.RenderFields | frontend/assets/app.js:291-347 | The `forEach` accumulation produces exactly the rendering of every field, or nothing when one throws. |
| Renderer.RenderDynamicForm | frontend/assets/app.js:281-354 | Renders exactly the form `FormFor` describes. |
| Naming.CheckNewFormName | frontend/assets/app.js:719-730 | Blank input is refused as empty if and only if it is all whitespace. A name is accepted iff its trim matches `^[a-z0-9-]+$`, and the trim is the name. |
| Naming.TrimKeeps | frontend/assets/app.js:719 | A string with no whitespace at either end trims to itself. |
| Naming.ValidNameAccepted | frontend/assets/app.js:719-730 | A name already matching the pattern is accepted unchanged. |
| Naming.UnpaddedBadNameRefused | frontend/assets/app.js:727-730 | A non-blank name outside the pattern is refused. |
| Naming.SpacedCapitalNameRefused | frontend/assets/app.js:727-730 | `"My Form"` is refused. |
| Naming.HyphenatedNameAccepted | frontend/assets/app.js:727-730 | `"my-form"` is accepted as it is. |
| Naming.BlankNameRefused | frontend/assets/app.js:721-724 | Whitespace-only input is refused before the pattern is tried. |
| Naming.HyphensToSpaces | frontend/assets/app.js:732 | Each hyphen becomes a space and every other character is kept. |
| Naming.LowerString | frontend/assets/app.js:25-26 | `toLowerCase` keeps the length and lower-cases each character. |
| Naming.CapitalizeWords | frontend/assets/app.js:732 | Exactly the word characters that follow a `\b` boundary are upper-cased. |
| Naming.TitleOfValidName | frontend/assets/app.js:732 | For an accepted name, the title has the name's length. It has a space exactly where the name has a hyphen, and a capital exactly where a letter starts a hyphen-separated word. It lower-cases back to the spaced name. |
| Naming.TitleExamples | frontend/assets/app.js:732 | `my-form` gives `My Form`, and `2fa-setup` gives `2fa Setup`. |
| Naming.CollapseWhitespace | frontend/assets/app.js:25-26 | With a separator free of whitespace, `replace(/\s+/g, sep)` leaves no whitespace. |
| Naming.DefaultFormTemplate | frontend/assets/app.js:21-85 | The template starts with the title line and contains the derived `workflow` and `event_type` lines. |
| Naming.CollapseSpaced | frontend/assets/app.js:25-26 | On the spaced form of a name, collapsing whitespace runs equals collapsing the name's hyphen runs. |
| Naming.TemplateNamesFromName | frontend/assets/app.js:25-26 | For an accepted name, the template's workflow is the name with each hyphen run collapsed to one `-`, plus `-workflow.yml`. The event type is the name with each run collapsed to one `_`, plus `_automation`. |
| Session.ShownFor | frontend/assets/app.js:258-268 | The container shows the rendered form iff rendering succeeds. Otherwise it shows the render error. |
| Session.CreateRequestOf | frontend/assets/app.js:718-735 | A create request is sent if and only if the name passes the checks. |
| Session.ModalFor | frontend/assets/app.js:520-535 | The success modal opens iff the reply is 2xx with a JSON body other than `null`. It shows the body's `message` and `timestamp` and the payload's repository, workflow and event type. The failure modal opens iff the reply is JSON with another status, and shows that body. Anything else opens the network-error modal. This includes a 2xx `null` body, where `result.message` throws. |
| Session.EditorSession.constructor | frontend/assets/app.js:4-7 | The globals start as `null`, `null` and `false`, with an empty editor and container. The invariant holds for any decoder that gives nothing for `""` and no `fields` for whitespace-only text. |
| Session.EditorSession.ParseAndRenderForm | frontend/assets/app.js:250-269 | Performs the parse transition and keeps the invariant. |
| Session.EditorSession.OnYamlChange | frontend/assets/app.js:682-686 | Performs the edit transition (set the text, mark it dirty, parse) and keeps the invariant. |
| Session.EditorSession.ClearEditor | frontend/assets/app.js:672-680 | Performs the clear transition and keeps the invariant. |
| Session.EditorSession.LoadSelectedForm | frontend/assets/app.js:646-670 | Performs the load transition and keeps the invariant. |
| Session.EditorSession.SaveFormConfiguration | frontend/assets/app.js:694-710 | Sends exactly the save request of the old state, performs the save transition and keeps the invariant. |
| Session.EditorSession.DeleteCurrentForm | frontend/assets/app.js:757-767 | Sends a delete for the selected form only, performs the delete transition and keeps the invariant. |
| Session.EditorSession.CreateNewForm | frontend/assets/app.js:718-742 | Sends exactly the create request for the typed name, performs the create transition (with whether the registry accepted it and whether the form list then reloaded as inputs) and keeps the invariant. |
| Session.EditorSession.SelectAndLoad | frontend/assets/app.js:739-740 | Setting the selector to the new name and loading is the load transition from the state whose selector holds the name if the reloaded list offers it, and `""` otherwise. |
| Session.EditorSession.SendPayload | frontend/assets/app.js:455-518 | Computes exactly the send outcome of the current state: refusal, collection failure, or request and modal. It changes no state. |
| Session.ParseStepCoherent | frontend/assets/app.js:250-269 | Parsing leaves the session coherent: the configuration is the decoded text, a configuration with fields is shown rendered, and errors are shown only where they apply. |
| Session.LoadStepCoherent | frontend/assets/app.js:646-670 | Loading keeps the session coherent. |
| Session.CreateStepCoherent | frontend/assets/app.js:718-742 | Creating keeps the session coherent. |
| Session.EditingEnablesSave | frontend/assets/app.js:682-691 | After an edit the session is dirty with the new text and its decoding, and saving is enabled iff a form is selected. After a clear, saving is disabled. |
| Session.ClearResets | frontend/assets/app.js:672-680 | Clearing empties the editor and container, resets the three globals, leaves the selector, and is coherent. |
| Session.ParseOutcomes | frontend/assets/app.js:258-265 | A text that does not decode leaves no configuration. A blank text shows no error and keeps a rendered form. A non-blank text without fields shows the invalid-configuration error. A text with fields shows its rendering. |
| Session.SaveOutcomes | frontend/assets/app.js:694-710 | Nothing is sent or changed unless the session is dirty with a form selected and the text decodes. Otherwise it sends the text under the selected name, with the title falling back to the name. A successful save clears only the dirty flag. |
| Session.LoadOutcomes | frontend/assets/app.js:646-670 | Declining the prompt only puts the selector back. An empty selection clears the editor. A loaded form replaces the text, is decoded, and starts clean. |
| Session.FailedLoadKeepsTextUnderNewKey | frontend/assets/app.js:661-669 | A confirmed switch whose load fails still selects the new name and keeps the old unsaved text. The next save writes that text under the new name. |
| Session.DeleteOutcomes | frontend/assets/app.js:757-767 | Without a selected form, or when refused, nothing changes. A confirmed delete resets everything to the initial state. |
| Session.CreateOutcomes | frontend/assets/app.js:718-742 | A refused name sends nothing and changes nothing. An accepted one sends the trimmed name and its title. A refused create changes nothing. After a create whose form list reloaded, the new form is selected, and a fetched text is loaded clean. If the reload failed (app.js:100-122 swallows the error), the selector cannot show the new name: a dirty session whose prompt is declined gets its selector back on the current form, otherwise the editor is cleared. |
| Session.CreatedTemplateNames | frontend/assets/app.js:732-733 | The request for an accepted name carries the trimmed name and its title. Its template's workflow and event type are derived from the name. |
| Session.SendGuard | frontend/assets/app.js:456-473 | No configuration, a blank token and a missing repository each refuse the send, checked in that order, and each iff its condition holds. |
| Session.SentIsDisplayed | frontend/assets/app.js:485-517 | The request carries the displayed payload, the non-empty trimmed token, and a repository equal to the payload's target repository. |
| Registry.FindByName | backend/app.py:57 | `find_one` by name finds the first document with that name. `None` means no document has it. |
| Registry.FindUnique | backend/app.py:57 | Under the unique index, looking up a document's name finds that document. |
| Registry.Serialize | backend/app.py:39-42 | `_id` becomes a 24-character lower-case hexadecimal string. Every other field is unchanged. |
| Registry.SerializedIdReadsBack | backend/app.py:39-42 | The `_id` string reads back as the ObjectId, so distinct documents get distinct strings. |
| Registry.ListReply | backend/app.py:45-51 | 200 with every document serialized, in collection order. |
| Registry.GetMeaning | backend/app.py:53-62 | 404 iff no document has the name. Otherwise 200 with that document, whose `_id` string reads back as its ObjectId. |
| Registry.CreateOutcomes | backend/app.py:64-91 | The first missing of `name`, `title`, `yamlContent` gives 400, before the duplicate check. A duplicate name gives 409 iff one exists, and 201 iff none does. Then exactly one document with the three fields and both timestamps is appended and returned with 201. A non-container body gives 500. Every refusal leaves the collection unchanged. |
| Registry.CreateKeepsWellformed | backend/app.py:75-87 | A create with a fresh ObjectId keeps names and ids unique. |
| Registry.AppendKeepsWellformed | backend/app.py:87 | Inserting a document with a fresh name and id keeps names and ids unique. |
| Registry.UpdateFieldsOf | backend/app.py:97-105 | For an object body, the update holds exactly those of `yamlContent`, `title` and `name` that are present, with the body's values. A non-container body raises. |
| Registry.NothingToUpdateBeforeNotFound | backend/app.py:107-118 | A body with none of the three keys gives 400 "Nothing to update" even when the form does not exist. |
| Registry.UpdateEffects | backend/app.py:110-121 | An unknown form gives 404 iff no document has the name. A rename onto another form's name gives 500 with no change. Any other match gives 200. Every non-200 leaves the collection unchanged. On 200 only the first match changes, in the supplied fields and `updatedAt`, keeping its ObjectId and `createdAt`. The reply is that document, or null after a rename. |
| Registry.UpdateKeepsWellformed | backend/app.py:110-118 | Every update keeps names and ids unique. |
| Registry.DeleteEffects | backend/app.py:125-133 | 404 iff no document has the name, with no change. Otherwise 200 "Form deleted": exactly that document is removed, the others keep their order, and none with that name is left. |
| Registry.DeleteKeepsWellformed | backend/app.py:128-131 | Deleting keeps names and ids unique. |
| Registry.FormRegistry.GetForm | backend/app.py:53-62 | Replies exactly as `get_form` does on the current collection, and changes nothing. |
| Registry.FormRegistry.ListForms | backend/app.py:45-51 | The serializing loop replies exactly as `get_forms` does, and changes nothing. |
| Registry.FormRegistry.CreateForm | backend/app.py:64-91 | Reply and new collection are exactly the create outcome, and uniqueness is kept. |
| Registry.FormRegistry.UpdateForm | backend/app.py:93-123 | Building `update_fields` in place, then `update_one` and the re-read, gives exactly the update outcome. Uniqueness is kept. |
| Registry.FormRegistry.DeleteForm | backend/app.py:125-133 | Reply and new collection are exactly the delete outcome, and uniqueness is kept. |
| Dispatch.MapStatus | backend/app.py:176-206 | 204 gives 200 with the event type, repository and timestamp. 401, 404 and 422 give their fixed errors with the same status. Any other status passes through with GitHub's text. |
| Dispatch.DispatchFieldsPresent | backend/app.py:144-150 | An object body that passes the scan has all four fields. |
| Dispatch.ValidationBeforeCall | backend/app.py:143-154 | No call is made unless the body is an object with all four fields and the repository passes `'/' in`. The first missing field gives 400. A string repository without `/` gives 400. A non-container body gives 500. |
| Dispatch.CallForwardsRequest | backend/app.py:157-211 | A call carries the body's repository, token, event type and client payload unchanged. The reply is the network error or the status mapping of GitHub's answer. |
| Dispatch.GitHubDispatch | backend/app.py:135-211 | The handler, with early returns, produces exactly the dispatch outcome: the call made, if any, and the reply. |
| Dispatch.EncodeRequest | frontend/assets/app.js:513-517 | The browser's request body is an object holding all four required fields. |
| Dispatch.BrowserRequestReachesGitHub | backend/app.py:144-154 | A request the browser sends always passes the field check. It reaches GitHub iff its repository contains `/`, and then with the browser's event type, token and repository. Otherwise the reply is the format error. |

## Left out

- YAML decoding (`jsyaml.load`) is a foreign library. It is the session's `parse` parameter.
- A document that decodes to a truthy value other than a mapping behaves as a mapping with every key absent, and is represented that way.
- Non-string values under `github.workflow`, `github.repository` or `github.event_type`, a `fields` value that is not a list, and non-string field names, labels and option values are not represented. Nor is a dropdown or checkbox field whose `options` is truthy but not a list: there `forEach` throws (app.js:319, 331). A non-string `type` is not represented either; it matches no case and behaves like an unknown kind.
- Network calls and `await` are not modelled. Their results are parameters. Races between in-flight requests are concurrency and are left out.
- HTML markup, the lack of escaping, `innerHTML`, and event-listener wiring are not modelled. The renderer yields descriptors.
- Collector.CheckedValues: matches checkbox names by string equality. The script builds the CSS selector `input[name="<name>"]:checked` without escaping (app.js:395). A checkbox field name containing `"` makes `querySelectorAll` throw, and the catch of `parseAndRenderForm` (app.js:266-267) then replaces the form with the "Error parsing YAML" message. A `\` in the name is read as a CSS escape. Neither is modelled.
- Notifications, modal display and hiding, confetti, `syntaxHighlight`, the payload's pretty-printed text, the health check, the `beforeunload` and keypress handlers, and the database status display are UI chrome.
- Session.EditorSession.SendPayload: does not model the send button's disabled and "Sending..." state. It is set before the request and reset in `finally`, so it can be seen only during the `await`.
- Clock reads and ObjectId generation are parameters.
- JavaScript object key order of the payload and of the collected data is not modelled. Values are maps.
- Numbers are integers. Floats, `NaN` and number formatting are left out.
- YAML timestamps are left out. The YAML decoder turns an unquoted date such as `default: 2024-01-01` or `title: 2024-01-01` into a `Date` object. The markup renders it through `Date.prototype.toString` (app.js:302-305, 313), and the payload through `toISOString` when it is serialised as JSON (app.js:424). The JSON value type has no date case.
- `toLowerCase` and `toUpperCase` act on ASCII letters only. Titles come from names matching `^[a-z0-9-]+$`, so this is all the accepted path needs.
- `find_one`, `update_one` and `delete_one` match by equality of the stored `name`. MongoDB query operators in a JSON `name` and array-element matching are not modelled.
- A 500 reply carries only the fixed prefix ("Database error", "Network error", "GitHub dispatch error"). The exception text after it is not modelled.
- Dispatch replies are a datatype, not their JSON text. Python's `str()` of a non-string repository or token in the URL and the `details` text is not modelled.
- Flask's handling of a non-JSON request body is not modelled. A body that decodes to `null` or another scalar is, and gives the 500 the handlers give.
- Session.LoadOutcomes: a `yamlContent` that is not a string is not represented. A load yields a string or nothing.
- `createdAt` and `updatedAt` are numbers, not `datetime` values rendered by `jsonify`.
- Collector.GetFormData: the collected record is a map with no inherited keys. In the script, `data` is a plain object. A control named after an `Object.prototype` member (`constructor`, `toString`, `valueOf`, `hasOwnProperty`, …) finds that member truthy on its first entry and stores a two-element list. A control named `__proto__` is dropped. The model stores a plain string in both cases.
- Creating the database and seeding it is not part of this model. Only the unique index on `name` is used, as the invariant `UniqueNames`.
