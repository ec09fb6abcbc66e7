# Users service of vue-express-mongo-boilerplate, modelled in Dafny

This project models the `users` service (`server/services/applogic/users/service.js`).
The service is a CRUD resource with the actions `list`, `get`, `model`, `create`, `update`
and `remove`. The model covers four parts of it:

- **Duplicate-key translation** (`DuplicateKey`, over the JavaScript string operations in
  `JsString`). A MongoDB E11000 message is turned into the service's 400 / `BAD_REQUEST` error:
  the text after the first `"index: "`, cut at the first `" dup key"`, then cut before its last
  `"_"`. `indexOf`, `lastIndexOf`, the two pieces of `split` and the clamping and swapping of
  `substring` follow ECMAScript, so the edge cases come out as the code has them:
  - an index name without `"_"` gives the empty field;
  - a message without `"index: "` makes `split(...)[1]` `undefined`, and the handler throws a
    `TypeError` (`Fault.TypeError`) instead of answering 400.
- **The user record** (`UserModel`, `UserDocument`):
  - the record `create` builds, with `passwordLess` and `verified` forced to true and the reset
    token expiring 24 hours after the clock;
  - the eighteen-field partial patch of `update`, both as a function on records and as the
    in-place mutation of a document object (`UserDoc`);
  - the `modelPropFilter` allow-list projection `toJSON`.
- **The collection** (`Store`):
  - records in insertion order, looked up by `code`;
  - `save` (replace by code, or append);
  - deletion;
  - the unique `email_1` / `username_1` indexes, which make `save` fail with code 11000 and a
    MongoDB-format message.
- **The action pipeline** (`Pipeline`, `UsersService`):
  - each action is a step of a state machine over the collection, the action cache (keys:
    `list` by limit/offset/sort/filter/author, `get` by code, `model` by code) and the ordered
    effects the service emits (`notifyModelChanges`, `clearCache`);
  - `UsersService.Service` is the stateful service object; each of its handlers is proved equal
    to its step function.

The invariant `Pipeline.Valid` has two parts:
- no two records share a code, an email or a username;
- every cache entry equals what its action would compute from the collection now.

Every step keeps `Valid`. So reads answer from the collection whether or not they hit the cache,
and a read after a mutation never sees pre-mutation data.

Three behaviours of the code are easy to miss, and the model keeps them:
- a duplicate-key message without `"index: "` crashes the handler instead of degrading
  gracefully;
- `update` builds a different error payload from `create`: `params.field` carries the message
  code, and the toast message still says "create";
- `update` resolves the record without going through the `model` cache.

## Model

| member | source | states |
|---|---|---|
| JsString.IndexOf | server/services/applogic/users/service.js:104-105 | for a non-empty separator (the only kind lines 104-105 pass), the result is -1 exactly when the separator occurs nowhere from `from` on; otherwise it is the first occurrence at or after `from` |
| JsString.LastIndexOf | server/services/applogic/users/service.js:106 | the result is -1 or an index holding the character, with no later index holding it |
| JsString.FirstPiece | server/services/applogic/users/service.js:105 | `split(sep)[0]` is a prefix with no occurrence of `sep` in it, followed by `sep` or by the end of the text |
| JsString.SecondPiece | server/services/applogic/users/service.js:104 | `split(sep)[1]` is `undefined` exactly when `sep` never occurs; otherwise it is the text after the first occurrence, up to the next occurrence or the end |
| JsString.PieceAfterFirst | server/services/applogic/users/service.js:104 | when `sep` first occurs at `i`, `split(sep)[1]` is a prefix of the text after it, ended by the end or by the next `sep` |
| JsString.OccursInSuffix | server/services/applogic/users/service.js:104 | an occurrence in a suffix is the shifted occurrence in the whole text |
| JsString.IndexOfIs | server/services/applogic/users/service.js:104-105 | for a non-empty separator, an occurrence with none before it (from `from`) is what `indexOf` returns |
| JsString.ClampIndex | server/services/applogic/users/service.js:106 | a `substring` argument is clamped into `[0, length]`: in-range arguments are kept, negative ones become 0 and ones past the end become the length |
| JsString.Substring | server/services/applogic/users/service.js:106 | `substring(a, b)` is the slice between the two arguments, whichever is the larger, when both are in range; two arguments both at or below 0, or both at or past the end, give ""; the result is never longer than the text |
| JsString.SubstringSwaps | server/services/applogic/users/service.js:106 | `substring(a, b)` equals `substring(b, a)` |
| DuplicateKey.SubstringFromZero | server/services/applogic/users/service.js:106 | `substring(0, b)` is the prefix of length `b`, and "" for negative `b` |
| DuplicateKey.FieldOfIndexName | server/services/applogic/users/service.js:106 | the field is "" when the index name has no `_`; otherwise it is the prefix before the last `_` |
| DuplicateKey.DuplicateField | server/services/applogic/users/service.js:104-106 | a field is extracted exactly when the message contains "index: " |
| DuplicateKey.TranslateCreateError | server/services/applogic/users/service.js:102-118 | non-11000 errors are rethrown unchanged; 11000 without "index: " crashes; otherwise a 400 BAD_REQUEST with msgCode `DuplicateFieldError: <field>`, params.field `<field>` and the create message |
| DuplicateKey.TranslateUpdateError | server/services/applogic/users/service.js:187-203 | the same cases as create; params.field is the msgCode, the message is "Unable to update user, duplicate field <field>", and the toast message is the create text |
| DuplicateKey.TranslationsAgree | server/services/applogic/users/service.js:187-203 | both translations yield a 400 BAD_REQUEST for the same errors, with the same status, type and msgCode; all other outcomes are identical |
| DuplicateKey.TranslationCases | server/services/applogic/users/service.js:103-104 | the result is a 400 exactly for code 11000 with "index: " in the message, and a crash exactly for code 11000 without it |
| DuplicateKey.NoUnderscoreGivesEmptyField | server/services/applogic/users/service.js:104-106 | a message `<pre>index: <name> dup key<post>` with an index name without `_` yields the empty field name, whatever `<name>` and `<post>` otherwise are, when "index: " occurs nowhere in `<pre>` |
| DuplicateKey.FieldOfMarkedIndex | server/services/applogic/users/service.js:104-106 | a message `<pre>index: <name>_<suffix> dup key<post>` yields `<name>`, whatever `<post>` is, when "index: " occurs nowhere in `<pre>`, `<name>` has no space and `<suffix>` has no `_` |
| DuplicateKey.FieldOfNameSuffix | server/services/applogic/users/service.js:106 | cutting `<name>_<suffix>` before its last `_` gives `<name>` |
| DuplicateKey.AfterMarker | server/services/applogic/users/service.js:104 | when "index: " occurs nowhere in `<pre>`, `split("index: ")[1]` of `<pre>index: <rest>` is a prefix of `<rest>` that ends at the end of the text or at the next "index: " |
| DuplicateKey.PieceInSegment | server/services/applogic/users/service.js:104-105 | the piece the two splits cut out of `<pre>index: <seg> dup key<post>` is a prefix of `<seg>`, whatever `<seg>` and `<post>` are |
| DuplicateKey.CutWithinSegment | server/services/applogic/users/service.js:104-105 | `split(" dup key")[0]` of the text after the marker is a prefix of `<seg>`, because no "index: " can start inside " dup key" |
| DuplicateKey.NoMarkerInDupKey | server/services/applogic/users/service.js:104 | no "index: " starts inside the " dup key" that follows the index name |
| DuplicateKey.PieceBeyond | server/services/applogic/users/service.js:104-105 | when `<seg>` has an `_` with no space before it, the piece the two splits cut out reaches past that `_` |
| DuplicateKey.CutBeyond | server/services/applogic/users/service.js:104-105 | the same, stated for the text after the marker |
| DuplicateKey.NoMarkerUpTo | server/services/applogic/users/service.js:104 | no "index: " starts at or before an `_` that has no space before it |
| DuplicateKey.FirstMarkerAt | server/services/applogic/users/service.js:104 | when "index: " occurs nowhere in `<pre>`, the first "index: " of `<pre>index: <rest>` is the one right after `<pre>` |
| UserModel.ToJSON | server/services/applogic/users/service.js:30-31 | the output holds only allow-listed fields, never password, passwordLess, passwordLessToken, resetPasswordToken, resetPasswordExpires or verifyToken; each allow-listed field that is set is present with its stored value |
| UserModel.NewUser | server/services/applogic/users/service.js:80-101 | the code, the generated password and the reset token are set; passwordLess and verified are true; the expiry is now + 86400000 |
| UserModel.NewUserField | server/services/applogic/users/service.js:82-99 | the twelve copied params appear unchanged in the new record |
| UserModel.CreatedField | server/services/applogic/users/service.js:82-101 | per field, the serialized new user holds exactly the code, `verified: true` and the copied allow-listed params |
| UserModel.CreatedJson | server/services/applogic/users/service.js:80-121 | what `create` returns is determined by the code and the copied params alone |
| UserModel.AllowListIsPropFilter | server/services/applogic/users/service.js:31 | the allow-list holds exactly the fields whose property name `modelPropFilter` lists |
| UserModel.Patch | server/services/applogic/users/service.js:166-185 | code, createdAt and updatedAt never change |
| UserModel.PatchField | server/services/applogic/users/service.js:168-185 | each field becomes the param when it is not null/undefined, and otherwise keeps its old value |
| UserModel.PatchIsOverride | server/services/applogic/users/service.js:166-185 | the patched document is the old document overridden by the set params, and nothing else changes |
| UserModel.PatchWithNoParams | server/services/applogic/users/service.js:166-185 | empty params leave the record unchanged |
| UserModel.PatchIdempotent | server/services/applogic/users/service.js:166-185 | applying the same params twice equals applying them once |
| UserDocument.ConstructedThenForced | server/services/applogic/users/service.js:82-101 | `new User({...})` followed by the two forced assignments is the record `create` saves, whatever `params.verified` was |
| UserDocument.UserDoc.FromParams | server/services/applogic/users/service.js:82-99 | the constructed document holds the copied params, the password and the token with its expiry: its snapshot is `Constructed`, the record `new User({...})` builds |
| UserDocument.UserDoc.Load | server/services/applogic/users/service.js:165 | the loaded document holds the stored record |
| UserDocument.UserDoc.ApplyPatch | server/services/applogic/users/service.js:168-185 | after the eighteen guarded assignments, the document is the patch of the old one |
| UserDocument.UserDoc.PatchName | server/services/applogic/users/service.js:168-170 | fullName, email and username: each is overridden only by a set param, and every other field is unchanged |
| UserDocument.UserDoc.PatchCredentials | server/services/applogic/users/service.js:171-173 | password, passwordLess and passwordLessToken, likewise |
| UserDocument.UserDoc.PatchProfile | server/services/applogic/users/service.js:174-176 | provider, profile and socialLinks, likewise |
| UserDocument.UserDoc.PatchAccess | server/services/applogic/users/service.js:177-179 | roles, resetPasswordToken and resetPasswordExpires, likewise |
| UserDocument.UserDoc.PatchVerification | server/services/applogic/users/service.js:180-182 | verified, verifyToken and apiKey, likewise |
| UserDocument.UserDoc.PatchActivity | server/services/applogic/users/service.js:183-185 | lastLogin, locale and status, likewise |
| UserDocument.CreateDocument | server/services/applogic/users/service.js:82-101 | the fresh document `create` saves holds `NewUser` |
| UserDocument.PatchedDocument | server/services/applogic/users/service.js:165-185 | the fresh document `update` saves holds the patched record |
| Store.Find | server/services/applogic/users/service.js:66-72 | the result is a stored record with the code; it is None exactly when no record has it |
| Store.Replace | server/services/applogic/users/service.js:187 | an existing code now resolves to the new record; the length and every other code are unchanged |
| Store.Delete | server/services/applogic/users/service.js:228 | the code no longer resolves, every other code resolves as before, and no record is added |
| Store.Saved | server/services/applogic/users/service.js:102 | after `save` the code resolves to the saved record and every other code is unchanged |
| Store.AppendFind | server/services/applogic/users/service.js:102 | appending a new code makes it resolve to the appended record and leaves the others unchanged |
| Store.Clash | server/services/applogic/users/service.js:103 | two records collide exactly when the new one has a set email or username equal to the other's |
| Store.Conflict | server/services/applogic/users/service.js:103 | there is no collision exactly when no record with another code clashes; a reported collision comes from such a record |
| Store.SaveError | server/services/applogic/users/service.js:102-103 | a store fault wins; otherwise `save` fails exactly when a new document's code is already stored (on the `_id_` index) or on a collision, and then with code 11000 |
| Store.FindInUnique | server/services/applogic/users/service.js:66-72 | in a collection satisfying `Unique` (no two records share a code, an email or a username), every record is what the lookup by its own code finds |
| Store.DuplicateKeyMessageField | server/services/applogic/users/service.js:104-106 | for MongoDB's message on index `<name>_1`, the service extracts `<name>` when the index name has no space and "index: " does not occur in the namespace followed by a space |
| Store.IdMessageField | server/services/applogic/users/service.js:104-106 | for MongoDB's message on the `_id_` index, the service extracts "_id" under the same condition on the namespace |
| Store.SavedKeepsUnique | server/services/applogic/users/service.js:102 | a save without collision keeps codes, emails and usernames unique |
| Store.ReplaceAt | server/services/applogic/users/service.js:187 | replacement acts position by position |
| Store.DeleteKeepsUnique | server/services/applogic/users/service.js:228 | deletion keeps codes, emails and usernames unique |
| Store.MessageSplit | server/services/applogic/users/service.js:104-105 | the message is its head, the namespace, "index: ", the index name, " dup key" and its tail |
| Store.HeadAbsent | server/services/applogic/users/service.js:104 | "index: " does not occur in the text MongoDB puts before the index name when it does not occur in the namespace followed by a space |
| Store.HeadCompatible | server/services/applogic/users/service.js:228 | in a duplicate-free collection the first record differs in code from every later one and collides with none |
| Store.ConsKeepsUnique | server/services/applogic/users/service.js:228 | a record compatible with every record of a duplicate-free collection can be kept in front of it |
| Pipeline.SerializeAll | server/services/applogic/users/service.js:45 | one serialized document per record, in order, each the `toJSON` of its record, none of which carries a secret field |
| Pipeline.Committed | server/services/applogic/users/service.js:123-129 | a successful mutation empties the cache and appends exactly two effects to the log |
| Pipeline.ListStep | server/services/applogic/users/service.js:35-47 | `list` never changes the collection or the emitted effects |
| Pipeline.ModelStep | server/services/applogic/users/service.js:66-72 | `model` changes neither the collection nor the effects, and changes nothing when it finds no record |
| Pipeline.GetStep | server/services/applogic/users/service.js:51-63 | `get` never writes; its only failure is NotFound "app:UserNotFound", which leaves the state unchanged |
| Pipeline.CreateStep | server/services/applogic/users/service.js:76-130 | a failed `create` leaves the state unchanged |
| Pipeline.UpdateStep | server/services/applogic/users/service.js:160-215 | a failed `update` leaves the state unchanged |
| Pipeline.RemoveStep | server/services/applogic/users/service.js:222-240 | a failed `remove` changes neither the collection nor the effects |
| Pipeline.ListAnswersStore | server/services/applogic/users/service.js:35-47 | `list` returns every stored record serialized, from the cache or not, and keeps the invariant |
| Pipeline.ModelAnswersStore | server/services/applogic/users/service.js:66-72 | `model` returns the stored record, from the cache or not, and keeps the invariant |
| Pipeline.GetAnswersStore | server/services/applogic/users/service.js:57-63 | `get` fails with NotFound and no side effect exactly when no record has the code; otherwise it returns the serialized stored record |
| Pipeline.CreateKeepsValid | server/services/applogic/users/service.js:76-130 | `create` keeps the uniqueness and cache-coherence invariant |
| Pipeline.UpdateKeepsValid | server/services/applogic/users/service.js:160-215 | `update` keeps the invariant |
| Pipeline.RemoveKeepsValid | server/services/applogic/users/service.js:222-240 | `remove` keeps the invariant |
| Pipeline.CreateOutcome | server/services/applogic/users/service.js:102-129 | on failure, the translated error and no change. On success: the new record stored under its code, others unchanged, the record returned serialized, one `created` event with it, then the cache cleared |
| Pipeline.CreateThenGet | server/services/applogic/users/service.js:121-129 | `get` right after a successful `create` returns what `create` returned: the code, `verified: true` and the copied allow-listed params |
| Pipeline.ListAfterMutation | server/services/applogic/users/service.js:126-127 | after any successful mutation, `list` answers from the written collection and never from an older cache entry |
| Pipeline.UpdateNotFound | server/services/applogic/users/service.js:162-163 | `update` of an unknown code fails with NotFound and changes nothing |
| Pipeline.UpdateOutcome | server/services/applogic/users/service.js:187-214 | a successful `update` stores the patched record, leaves other codes unchanged, returns it serialized, emits one `updated` event and then clears the cache |
| Pipeline.UpdateFailure | server/services/applogic/users/service.js:187-203 | when the save of the patched record fails, `update` answers with that store error as `update` translates it (a 400 for a duplicate key, a crash without an index name, the error itself otherwise) and changes nothing |
| Pipeline.EmptyUpdate | server/services/applogic/users/service.js:166-214 | `update` with no params leaves the collection as it was, but still emits `updated` and clears the cache |
| Pipeline.MemberHasNoConflict | server/services/applogic/users/service.js:187 | a stored record collides with no other record of a duplicate-free collection |
| Pipeline.ReplaceSame | server/services/applogic/users/service.js:187 | saving a stored record unchanged leaves the collection as it was |
| Pipeline.RemoveOutcome | server/services/applogic/users/service.js:225-238 | an unknown code gives NotFound with no change, and a failed delete rethrows. A successful `remove` returns the pre-deletion record, emits one `removed` event, then clears the cache; afterwards the code does not resolve and other codes are unchanged |
| Pipeline.CreateTakenCode | server/services/applogic/users/service.js:102-116 | when the namespace has no "index: " followed by a space (true of any `<db>.users`), `create` with a code a record already has fails with a 400 whose params.field is `_id`, and changes nothing: it never overwrites a record |
| Pipeline.DuplicateEmailOnCreate | server/services/applogic/users/service.js:102-116 | when the namespace has no "index: " followed by a space (true of any `<db>.users`), `create` with a fresh code and another user's email (and a username no other user has) fails with a 400 whose params.field is `email` and whose msgCode is `DuplicateFieldError: email`, and changes nothing |
| Pipeline.DuplicateEmailOnUpdate | server/services/applogic/users/service.js:187-203 | when the namespace has no "index: " followed by a space (true of any `<db>.users`), `update` that sets another user's email (with a patched username no other user has) fails with a 400 whose params.field and msgCode are both `DuplicateFieldError: email`, and changes nothing |
| Pipeline.EmailTaken | server/services/applogic/users/service.js:102-106 | saving a new user whose email is taken, and whose username is not, fails with code 11000, and, when the namespace has no "index: " followed by a space (true of any `<db>.users`), the service reads the field "email" from the message |
| Pipeline.EmailConflict | server/services/applogic/users/service.js:103 | a user whose email another record holds, and whose username no other record holds, collides on the `email_1` index |
| UsersService.Service.constructor | server/services/applogic/users/service.js:17-27 | the service starts over the stored collection, which must be free of duplicates, with an empty cache and log; the start state satisfies the invariant |
| UsersService.Service.Save | server/services/applogic/users/service.js:102 | `save` of a new or a loaded document fails as `SaveError` says, and on success writes the record |
| UsersService.Service.Notify | server/services/applogic/users/service.js:124 | exactly one change event is appended |
| UsersService.Service.ClearCache | server/services/applogic/users/service.js:127 | the cache is emptied, after whatever was emitted before |
| UsersService.Service.Persist | server/services/applogic/users/service.js:102-127 | `save`, then on success one change event and the cache cleared; on failure nothing changes |
| UsersService.Service.List | server/services/applogic/users/service.js:40-47 | the handler performs `ListStep`, returns the serialized collection and keeps the invariant |
| UsersService.Service.Model | server/services/applogic/users/service.js:69-71 | the handler performs `ModelStep`, returns the stored record and keeps the invariant |
| UsersService.Service.Get | server/services/applogic/users/service.js:57-63 | the handler performs `GetStep` and keeps the invariant |
| UsersService.Service.Create | server/services/applogic/users/service.js:76-130 | the handler performs `CreateStep`, building the document in place, and keeps the invariant |
| UsersService.Service.Update | server/services/applogic/users/service.js:160-215 | the handler performs `UpdateStep`, patching the loaded document in place, and keeps the invariant |
| UsersService.Service.Remove | server/services/applogic/users/service.js:222-240 | the handler performs `RemoveStep` and keeps the invariant |

## Left out

- Password-reset email (lines 131-152): template rendering and mail delivery are fire-and-forget I/O. `create` returns its result whatever they do, and their callbacks' effects are not modelled.
- Randomness and the clock (lines 80-81, 86): the two random tokens and `Date.now()` are parameters of `create`.
- Hashed identities: the `code` of a new record is a parameter of `create`; a code some record already has makes the insertion fail on the `_id_` unique index, as MongoDB does for an identity already in use, so `create` never overwrites a record. `resolveID`, `checkModel` and `findById` (lines 162-165) are collapsed into one lookup by code, so `update` of an unknown code is NotFound. A code that decodes to an id with no record, which the code as written would send to `doc.f = ...` on `null`, is not modelled separately.
- Store failures other than the unique indexes (validation, connection) are an input, `fault`; `remove`'s delete failure is one too.
- Framework internals that are not shown: `applyFilters` (limit, offset and sort; `list` returns the whole collection in insertion order), `populateModels` (taken to be the identity), `toJSON` (the allow-list projection), and `clearCache` (the whole-cache reset). The framework's cache of a `model` miss is not modelled; only found records are cached.
- Mongoose schema behaviour: defaults, validation, `createdAt`/`updatedAt` timestamps, and sparse unique indexes. An unset email or username collides with nothing.
- DuplicateKey.FieldOfMarkedIndex, Store.DuplicateKeyMessageField: the field read from a message is proved only when "index: " does not occur before MongoDB's own marker (in the namespace) and the part of the index name before its `_` has no space; a namespace or index name that breaks this can make the code read a different piece of the message, which these lemmas do not describe. DuplicateKey.NoUnderscoreGivesEmptyField needs only the condition on the namespace part.
- When a record collides with one user on the email index and with another user on the username index, the model reports the index of whichever of those users is stored first (Store.Conflict scans the collection in order); MongoDB reports the first index it checks, which the model does not fix.
- `null` and `undefined` are both `None`, as `!= null` treats them alike.
- The GraphQL schema and resolver strings (lines 267-332), whose mutations declare `local` rather than `locale` (lines 315-316); the transport settings; lifecycle hooks; `console.log` (line 223).
- Concurrency: requests are sequential steps; the cache across concurrent requests is not modelled.
- UserModel.ToJSON: values are modelled as abstract field values; the serialized form of `_id`, nested objects and dates is not modelled.
