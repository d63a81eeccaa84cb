# Punto Vuela volunteer matching, modelled in Dafny

The application connects people who need help with digital tasks with volunteers:

- **Requesters** ("solicitantes") post help requests ("trayectos"), such as help with WhatsApp, e-mail or a video call.
- **Volunteers** ("voluntarios") accept a request and later mark it completed.

This project models four parts of the application:

- **The account endpoints** (`register`, `verifyEmail`, `login`). They run over the `usuario` table, whose column constraints come from the Sequelize model.
- **The help-request endpoints** (`createTrayecto` with its new-request notice, `findAllTrayectos`, `findOneTrayecto`, `updateTrayecto`). They run over an in-memory `trayecto` table.
- **The React client's state and handlers.** This covers the status mapping, the "my requests" and "my helps" lists, the volunteer dashboard, form validation, and the handlers that call the endpoints.
- **The single-engagement rule.** It says a volunteer holds at most one accepted request. The client's guard keeps the rule when every action is taken on freshly loaded lists. Neither the server on its own nor the guard on stale lists keeps it.

Modules:

| file | module | contents |
|---|---|---|
| wrappers.dfy | `Wrappers` | `Option` for nullable columns and absent JSON fields |
| seqs.dfy | `Seqs` | `find`/`findOne` (`IndexWhere`) and `filter` (`Filter`), with their order and count lemmas |
| text.dfy | `Text` | `toLowerCase`, `endsWith`, `split('@')[0]`, `String(n)` and `parseInt` |
| usuario_model.dfy | `UsuarioModel` | the `Usuario` row, column limits, unique keys, and the database's insert check |
| auth_controller.dfy | `AuthController` | class `UserTable` with `Register`, `VerifyEmail` and `Login` |
| trayecto_controller.dfy | `TrayectoController` | field merge, update by key, notice recipients, class `TrayectoTable` |
| help_requests.dfy | `HelpRequests` | the client's pure logic: status mapping, lists, labels, request body, form checks |
| engagement.dfy | `Engagement` | the single-engagement rule, client steps as table transitions, counterexamples |
| client.dfy | `Client` | class `App`: the client's state and its handlers, which call the two tables |

Outside effects are inputs rather than computations:

- The password hash, the random verification token and `Date.now()` are method parameters. `bcrypt.compare` is a function parameter.
- The outcome of the role update call is a boolean parameter.
- Whether the user list can be read for the notice is a boolean parameter.

The model follows the code where it is lax:

- The server accepts any `estado` change from anyone. There is no transition check and no server-side engagement check.
- A `CANCELADO` request is shown to volunteers as pending and can be accepted.
- `email_verified` is nullable in the schema, because it has no `allowNull: false`. Login treats null as unverified.

## Model

| member | source | states |
|---|---|---|
| Seqs.IndexWhere | backend/controllers/trayecto.controller.js:61-66 | the row a `findOne`/`findByPk` or `Array.find` picks: the first that matches; `None` exactly when no row matches |
| Seqs.Filter | frontend/src/App.tsx:126-127 | `Array.filter`: an element is kept exactly when it is in the input and matches; never longer than the input |
| Text.LowerChar | frontend/src/App.tsx:185 | `toLowerCase` on one character folds exactly the ASCII capitals to their small letters |
| Text.ToLower | frontend/src/App.tsx:185 | same length, each character folded |
| Text.Before | backend/controllers/auth.controller.js:27 | `split('@')[0]`: the longest prefix without the separator, which is followed by the separator when shorter than the input |
| Text.DecimalString | backend/controllers/auth.controller.js:27 | `String(Date.now())` is a non-empty run of decimal digits |
| Text.DecimalStringLength | backend/controllers/auth.controller.js:27 | a number has a k-digit numeral exactly when it lies in [10^(k-1), 10^k) |
| Text.DigitsValueDecimal | backend/controllers/auth.controller.js:27 | the numeral of n reads back as n |
| Text.ParseInt | frontend/src/App.tsx:196 | `parseInt` is NaN (`None`) exactly when no digit follows the optional sign |
| Text.IntString | frontend/src/App.tsx:155 | `edad.toString()` is never empty, so a present age always refills the form field |
| Text.ParseIntString | frontend/src/App.tsx:155 | `parseInt(String(n)) == n` for every integer: an age refilled from a login survives the next registration |
| UsuarioModel.Insert | backend/models/usuario.model.js:4-65 | `Usuario.create` succeeds exactly when every column fits its type and no row shares the id, `nombre_usuario` or `email`; it then appends the row and keeps the table valid |
| UsuarioModel.EmailIdentifiesRow | backend/models/usuario.model.js:15-19 | the unique index on `email` means two rows with one address are the same row |
| AuthController.NombreUsuarioFits | backend/controllers/auth.controller.js:27 | with a 13-digit clock, the generated user name fits `STRING(50)` exactly when the address's local part has at most 36 characters |
| AuthController.Verify | backend/controllers/auth.controller.js:77-85 | no row holds the token ⇔ `None`; otherwise the row holding it is marked verified and its token cleared, and nothing else changes |
| AuthController.VerifyKeepsValid | backend/controllers/auth.controller.js:83-85 | the `save()` after verification never breaks a column or key constraint |
| AuthController.TokenSingleUse | backend/controllers/auth.controller.js:77-84 | a token that verified its row is rejected the second time |
| AuthController.UserTable.constructor | backend/models/usuario.model.js:4-9 | an empty, valid table whose auto-increment starts at 1 |
| AuthController.UserTable.Register | backend/controllers/auth.controller.js:7-69 | missing name, e-mail or password → 400; known e-mail → 400; otherwise the new row (`es_voluntario` false, `rol_activo` null, `email_verified` false, the token, `edad`/`genero` null when falsy) is inserted and answered with 201 and its profile, which has no password hash; a rejected insert → 500; every failure leaves the table unchanged |
| AuthController.UserTable.VerifyEmail | backend/controllers/auth.controller.js:73-88 | unknown token → 400 and no change; otherwise the table becomes `Verify`'s and the reply redirects to the client |
| AuthController.UserTable.Login | backend/controllers/auth.controller.js:96-140 | the ordered cascade 400 / 401 (unknown e-mail) / 401 (wrong password, same message) / 403 (unverified) / 200 with the profile and `es_voluntario`; it modifies nothing |
| TrayectoController.Merge | backend/controllers/trayecto.controller.js:76-78 | each of the eight columns the client can send takes the supplied value when present and keeps the record's when absent; a patch has no key or creation-time field, so those stay |
| TrayectoController.MergeIdempotent | backend/controllers/trayecto.controller.js:76-78 | the same update applied twice equals it applied once; an empty update changes nothing |
| TrayectoController.UpdateWhere | backend/controllers/trayecto.controller.js:76-78 | every row with the key is merged and every other row is untouched, whatever its `estado` |
| TrayectoController.Emails | backend/controllers/trayecto.controller.js:12-13 | `users.map(u => u.email)`, position by position |
| TrayectoController.RecipientsExact | backend/controllers/trayecto.controller.js:12-13 | an address is a recipient exactly when it is non-empty and belongs to some user, the requester included |
| TrayectoController.RecipientsAppend | backend/controllers/trayecto.controller.js:13 | the recipients keep the order of the user table |
| TrayectoController.EmailsAppend | backend/controllers/trayecto.controller.js:13 | mapping to addresses distributes over concatenation |
| TrayectoController.UpdateKeepsIndex | backend/controllers/trayecto.controller.js:76-80 | an update never moves the record `findByPk` picks for any key |
| TrayectoController.UpdateKeepsKeys | backend/controllers/trayecto.controller.js:76-78 | an update keeps the number of rows and every row's key |
| TrayectoController.UpdateMissingKey | backend/controllers/trayecto.controller.js:76-79 | an update whose key matches no record leaves the table as it was |
| TrayectoController.EmptyUpdateChangesNothing | backend/controllers/trayecto.controller.js:76-78 | an update that supplies no field leaves the table as it was |
| TrayectoController.KeyedIndex | backend/controllers/trayecto.controller.js:61 | with distinct keys, `findByPk` of a record's key returns that record |
| TrayectoController.TrayectoTable.constructor | backend/controllers/trayecto.controller.js:7 | an empty, valid table whose auto-increment starts at 1 |
| TrayectoController.TrayectoTable.FindOne | backend/controllers/trayecto.controller.js:59-68 | 404 exactly when no record has the key; otherwise 200 with a record of the table that has it |
| TrayectoController.TrayectoTable.FindAll | backend/controllers/trayecto.controller.js:45-53 | 200 with the whole table in order; a record is listed exactly when `FindOne` of its key returns it |
| TrayectoController.TrayectoTable.FindAllAgrees | backend/controllers/trayecto.controller.js:45-68 | in a valid table, membership and lookup by key agree |
| TrayectoController.TrayectoTable.CreateTrayecto | backend/controllers/trayecto.controller.js:4-24 | the body is appended under a fresh key and echoed with 201; a notice goes to `Recipients(users)` only when that is non-empty and the users could be read, and neither case changes the reply |
| TrayectoController.TrayectoTable.UpdateTrayecto | backend/controllers/trayecto.controller.js:74-89 | the table becomes `UpdateWhere`'s; an unknown key or a body with no field → 404 and no change; otherwise 200 with the merged record |
| HelpRequests.StatusOfEstado | frontend/src/App.tsx:103-105 | `ACEPTADO` ⇔ accepted, `COMPLETADO` ⇔ completed, `PENDIENTE` or `CANCELADO` ⇔ pending |
| HelpRequests.ToHelpRequests | frontend/src/App.tsx:102-121 | one help request per record, in table order |
| HelpRequests.MyRequests | frontend/src/App.tsx:126 | exactly the loaded requests whose `solicitante_id` is the user's |
| HelpRequests.MyHelps | frontend/src/App.tsx:127 | exactly the loaded requests whose `voluntario_id` is the user's |
| HelpRequests.MyListsKeepOrder | frontend/src/App.tsx:125-128 | both lists keep the loaded order: filtering distributes over concatenation |
| HelpRequests.PendingRequests | frontend/src/App.tsx:730 | the volunteer dashboard lists exactly the pending requests |
| HelpRequests.HasActiveHelp | frontend/src/App.tsx:731 | the accept buttons are disabled exactly when some help in "my helps" is accepted |
| HelpRequests.CompletableHelps | frontend/src/App.tsx:854-856 | "complete" is shown exactly on the user's helps whose status is accepted |
| HelpRequests.CategoryIdsDistinct | frontend/src/App.tsx:73-80 | no two categories share an id, so the label lookup is unambiguous |
| HelpRequests.CategoryLabel | frontend/src/App.tsx:337-340 | a known id gives its icon, a space and its label; an unknown id is returned unchanged |
| HelpRequests.NewRequestBody | frontend/src/App.tsx:240-257 | a body is sent exactly when the user id is truthy, a predefined location is selected and category and description are filled; it is `PENDIENTE`, has no volunteer, carries the user's id and the form's text, has the selected location's JSON as origin, an empty destination and the current ISO time as date |
| HelpRequests.ClientPatchesEffect | frontend/src/App.tsx:281-297 | accepting sets exactly `estado` and `voluntario_id`; completing sets only `estado`, so the volunteer stays |
| HelpRequests.RegisterFormError | frontend/src/App.tsx:179-189 | "fill all" ⇔ some field empty; the domain message ⇔ all filled and the lower-cased address ends in neither `@gmail.com` nor `@outlook.com`; otherwise the form is sent |
| HelpRequests.ClientCheckCoversServerCheck | frontend/src/App.tsx:179-198 | a form the client sends never meets the server's missing-field 400 |
| HelpRequests.AllowedDomainIgnoresCase | frontend/src/App.tsx:185-186 | the domain test gives the same answer for an address and its lower-cased form |
| HelpRequests.LowerIdempotent | frontend/src/App.tsx:185 | lower-casing twice equals lower-casing once |
| Engagement.FreshGuardExact | frontend/src/App.tsx:274-278 | on freshly loaded lists the guard blocks exactly when the volunteer already has an accepted request |
| Engagement.KeyCountAtMostOne | backend/controllers/trayecto.controller.js:76-78 | with distinct keys an update by key touches at most one record |
| Engagement.AcceptKeepsSingleEngagement | frontend/src/App.tsx:274-284 | an accept by a volunteer with no accepted request keeps the rule |
| Engagement.CompleteKeepsSingleEngagement | frontend/src/App.tsx:297 | completing keeps the rule |
| Engagement.CreateKeepsSingleEngagement | frontend/src/App.tsx:249-257 | appending a pending request keeps the rule |
| Engagement.StepKeepsInvariants | frontend/src/App.tsx:239-304 | every client action taken on fresh lists keeps the table's keys valid and keeps the rule |
| Engagement.CreateStep | frontend/src/App.tsx:239-257 | the create step inserts exactly the sent body under a fresh key, or nothing; it keeps the keys and the rule |
| Engagement.AcceptStep | frontend/src/App.tsx:271-284 | the guarded accept step keeps the keys and the rule |
| Engagement.CompleteStep | frontend/src/App.tsx:295-297 | the complete step keeps the keys and the rule |
| Engagement.RunKeepsSingleEngagement | frontend/src/App.tsx:239-304 | in any sequential run of client actions on fresh lists, no volunteer ever holds two accepted requests |
| Engagement.ServerUpdateBreaksSingleEngagement | backend/controllers/trayecto.controller.js:76-78 | the server's update alone breaks the rule: volunteer 7 ends up with two accepted requests |
| Engagement.StaleGuardBreaksSingleEngagement | frontend/src/App.tsx:274-278 | the guard on stale lists lets a second accept through and breaks the rule |
| Engagement.OfferedAcceptTargets | frontend/src/App.tsx:781-807 | "accept" is offered only on requests that are `PENDIENTE` or `CANCELADO` on the server |
| Engagement.OfferedCompleteIsAssigned | frontend/src/App.tsx:854-856 | "complete" is offered only on requests that are `ACEPTADO` with the user as volunteer |
| Client.FormOfProfile | frontend/src/App.tsx:151-157 | the refilled form copies name, e-mail and gender from the reply (null becomes empty), has no password, and its age parses back to the profile's age, or is empty when there is none |
| Client.App.constructor | frontend/src/App.tsx:43-97 | the initial state; a profile saved in `localStorage` opens the dashboard with the lists loaded from the table, otherwise registration with empty lists |
| Client.App.LoadTrayectos | frontend/src/App.tsx:99-128 | afterwards the lists show the table; with no user id the user's own lists are untouched |
| Client.App.HandleRegister | frontend/src/App.tsx:173-210 | a form error is shown with no call; otherwise the server's `Register`: a taken address → "already registered"; a created row → the pending user id and role choice; a failed insert → the server's message; on any error the table and page are unchanged |
| Client.App.HandleLogin | frontend/src/App.tsx:135-169 | an empty field → "fill all" with no call; unknown address or wrong password → the same message; unverified → the server's message; success → the pending user id, the form refilled without the password, and role choice; on error only the message changes |
| Client.App.HandleSelectRole | frontend/src/App.tsx:213-236 | with a truthy pending id and a saved role, the profile is built from the register form, the dashboard opens and the lists are reloaded from the table (the profile effect at App.tsx lines 93-97); otherwise nothing changes |
| Client.App.SwitchRole | frontend/src/App.tsx:306-318 | with a profile: the pending id, the form refilled from it without the password, and role choice; without one: nothing |
| Client.App.CreateHelpRequest | frontend/src/App.tsx:239-268 | with no body, nothing changes anywhere; otherwise the pending request is appended, the lists are fresh and the form is reset; on the table this is the `CreateRequest` step and keeps the rule |
| Client.App.SubmitRequest | frontend/src/App.tsx:248-262 | create, reload, reset: the table gains the record and the lists show it |
| Client.App.AcceptHelp | frontend/src/App.tsx:271-292 | no user id, or an accepted help among the loaded helps → no call and no change; otherwise the table gets `AcceptPatch` on that key and the lists are reloaded; on fresh lists this is the `AcceptHelp` step and keeps the rule |
| Client.App.SendUpdate | frontend/src/App.tsx:281-286 | an update followed by a reload: the table is `UpdateWhere`'s and the lists are fresh |
| Client.App.CompleteHelp | frontend/src/App.tsx:295-304 | the table gets `CompletePatch` on that key with no check, and the lists are reloaded; this is the `CompleteHelp` step and keeps the rule |
| Client.App.Logout | frontend/src/App.tsx:320-335 | profile, pending id, the three lists and the register form are cleared, and the page returns to registration |

## Left out

- E-mail sending (the verification mail and the new-request notification) is outside the model. `CreateTrayecto` returns the notice it would send; the verification mail is not represented.
- bcrypt hashing and comparison, `crypto.randomBytes` and `Date.now()` are inputs. The model does not check that the token is random or fresh.
- The `500` replies of `verifyEmail`, `login`, `findAllTrayectos`, `findOneTrayecto`, `updateTrayecto` and `createTrayecto` are not modelled. They come from database or connection failures, which cannot happen on the in-memory tables, or from a body the database rejects (see the next line). `register`'s 500 for a rejected insert is modelled.
- Request bodies of `createTrayecto` and `updateTrayecto` are modelled as the eight columns the client sends. A body naming `id` or `fecha_creacion`, or carrying an `estado` outside the four known values, is not modelled: the source would write those attributes or answer 500.
- The `trayecto` model file is not part of this model. `estado` is the four-value union the client declares. Creation accepts any body, so the database's own validation of a `trayecto` is not modelled.
- The `solicitante`/`voluntario` name joins of `findAll`/`findByPk` are not modelled. Neither are the display-only fields the client derives from them (names, age, parsed location, formatted timestamp).
- TrayectoController.TrayectoTable.UpdateTrayecto: the affected-row count is modelled as the number of rows whose key matches, and as 0 for a body that supplies no field. When the connection counts only changed rows, the source also answers 404 to a `PUT` that supplies fields but changes no value. The model answers 200 there, because the connection settings are not part of this model. The client ignores the update's reply, so none of its handlers depend on it.
- The database collation compares text without regard to case, both for e-mail addresses (`register`, `login`) and for the verification token (`verifyEmail`). The model compares both exactly.
- Text folding: `toLowerCase` folds only ASCII letters here. `parseInt` does not skip leading whitespace or read hexadecimal.
- `register` consumes the auto-increment value only on success. A real database may skip a value after a failed insert.
- Client.App.HandleRegister: the `includes('duplicado')` test of the error message is not modelled. No reply of `register` contains that word, so the test changes nothing.
- Client.App.HandleLogin: the 404 branch is dead, because `login` never answers 404. Network failures and the fallback messages for error bodies without a message are not modelled.
- Client.App.HandleSelectRole: `updateUserRol` is another endpoint. Its outcome is the `saved` parameter. The profile's `type` field follows from the role and is not stored.
- Client.App.CreateHelpRequest, Client.App.AcceptHelp and Client.App.CompleteHelp: a failed call or a failed reload is not modelled. The model covers only the path on which the server answers. The reload's own `catch` is not modelled either.
- Rendering (JSX), `alert`, the notification banner, `localStorage` writes and the input handlers that fill `loginForm`, `registerForm` and `requestData` are not modelled.
- Concurrency between clients is not modelled as interleaving. Stale lists are shown by the counterexample in `Engagement.StaleGuardBreaksSingleEngagement`.
- Location coordinates are kept as the text they serialise to. No floating point is modelled.
