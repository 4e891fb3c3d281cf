# SEO Toolers Chat client: form rules and chat box decisions

This project models the decision logic of a React chat client. Most of the
client is rendering and socket wiring. What is modelled here is the logic
those components compute from their inputs:

- the sign-up page: the submit handler trims the name, email, password and
  confirmation. It then applies three rules in a fixed order: length limits,
  matching passwords, minimum password length. It either reports the first
  failing rule or sends a `createAccount` record. The page also has an input
  change handler, the password visibility toggle, and the status hook. The
  status hook turns the store's sign-up flags into toasts and route changes
  (`Signup`);
- the sign-in page: a length gate in front of `signInAccount`, the same kind
  of change handler and toggle, and its status hook (`Signin`);
- the group details modal: the admin lookup, the member count and the member
  list, and the modal toggle (`ChatDetails`);
- the chat header: the other party of a direct chat, the picture and title,
  and when the group controls appear (`ChatHeader`);
- a message bubble: the four layout choices driven by "did the login user
  send this?" (`MessageLayout`).

Supporting modules:

- `Text` models ECMAScript `String.prototype.trim` over the WhiteSpace and
  LineTerminator code points. It also models a string's `length` in UTF-16
  code units.
- `Lookup` models `Array.prototype.find`.
- `AuthStatus` holds the store's status flags and tags for the hooks' side
  effects.
- `FormLimits` holds the shared length limits and message.
- `ChatData` holds the selected-chat record.
- `Wrappers` holds `Option` and `Result`.

The login user's id is a parameter. The source reads it from `localStorage`.
An access that would throw in the browser is an explicit error variant. There
are two such accesses: reading `.name` of a missing admin, and reading
`.pic`/`.name` of a missing other party.

## Model

| member | source | states |
|---|---|---|
| `Text.Trim` | src/routes/Signup.jsx:39-43 | The result has no whitespace at either end. It is a slice of the input at the offset where leading whitespace ends. Everything cut off on either side is whitespace. |
| `Text.TrimStart` | src/routes/Signin.jsx:35-38 | The result is a suffix of the input that does not start with whitespace. Everything dropped before it is whitespace. |
| `Text.TrimEnd` | src/routes/Signin.jsx:35-38 | The result is a prefix of the input that does not end with whitespace. Everything dropped after it is whitespace. |
| `Text.TrimUnique` | src/routes/Signup.jsx:39-43 | Trimming any whitespace-surrounded string whose ends are not whitespace gives back exactly that string. So `Trim` is determined by the three properties above. |
| `Text.TrimOfTrimmed` | src/routes/Signup.jsx:39-43 | A string with no whitespace at its ends is unchanged by trimming. |
| `Text.TrimIdempotent` | src/routes/Signup.jsx:39-43 | Trimming twice is the same as trimming once. |
| `Text.Utf16Length` | src/routes/Signup.jsx:46-49 | `.length` lies between the number of code points and twice that. It equals the number of code points exactly when no code point lies above the Basic Multilingual Plane. |
| `Lookup.FindIndex` | src/components/Home/ChatBox/ChatDetails.jsx:17 | `find` picks the first element satisfying the test, and no earlier element satisfies it. It has no result exactly when no element satisfies the test. |
| `AuthStatus.FailureExcludesSuccess` | src/routes/Signup.jsx:78-83 | No flag combination shows both the failure report and the success report. |
| `Signup.HandleChange` | src/routes/Signup.jsx:30-32 | The named field takes the event's value. The other three fields and the visibility flag are unchanged. |
| `Signup.TogglePasswordVisibility` | src/routes/Signup.jsx:65-67 | Flips the visibility flag and leaves the form unchanged. |
| `Signup.ToggleTwice` | src/routes/Signup.jsx:65-67 | Toggling twice restores the state. |
| `Signup.ToggleCommutesWithChange` | src/routes/Signup.jsx:30-32 | An input change and a visibility toggle give the same state in either order. |
| `Signup.RuleMessage` | src/routes/Signup.jsx:51-57 | The length rule's toast is "Maximum input length exceeded", the same text as on sign-in, and no other rule has that text. The minimum-length toast reads "Password must be at least 8 characters long". |
| `Signup.RuleMessagesDistinct` | src/routes/Signup.jsx:51-57 | The three rules have three different toast texts. |
| `Signup.Check` | src/routes/Signup.jsx:45-61 | Accepts exactly when all three rules hold, and then sends name, password and email. Otherwise it reports a failing rule, and every rule before it holds. |
| `Signup.HandleSubmit` | src/routes/Signup.jsx:35-62 | `createAccount` is sent exactly when every rule holds for the trimmed fields. The record holds the trimmed name, password and email and no confirmation. A rejection names the first failing rule. |
| `Signup.OverLengthRejectedFirst` | src/routes/Signup.jsx:45-51 | Any over-length trimmed field (password > 30, email > 40, name > 30, confirmation > 30) gives the length rule and its "Maximum input length exceeded" toast and sends nothing, even when the passwords also differ. |
| `Signup.MismatchRejected` | src/routes/Signup.jsx:53-55 | Within the limits, differing trimmed passwords give the match rule and its "Passwords do not match" toast, and send nothing. |
| `Signup.AcceptedPasswordBounds` | src/routes/Signup.jsx:56-60 | A sent password has 7 to 30 UTF-16 code units and equals the trimmed confirmation. |
| `Signup.SevenCharacterPasswordAccepted` | src/routes/Signup.jsx:56-57 | The seven-character password "abcdefg" has 7 code units and is sent. The minimum-length rule's own toast text says "at least 8 characters". |
| `Signup.HandleSubmitIntended` | src/routes/Signup.jsx:56-57 | With the announced minimum of 8, every sent password has 8 to 30 code units and matches the confirmation. The record is the trimmed one. |
| `Signup.IntendedDiffersOnlyAtSeven` | src/routes/Signup.jsx:56-57 | The as-written and intended handlers disagree only on trimmed passwords of exactly 7 code units. The first sends these and the second rejects them with the minimum-length rule. |
| `Signup.StatusEffects` | src/routes/Signup.jsx:70-90 | The error toast carries the store's message, and the success toast carries its fixed text. At most one of them fires: the error toast when the request is done, failed and not successful, the success toast when it is done, not failed and successful. `sign_in_success` always puts a navigation to "/" first. A move to "/signin" after 1000 ms is scheduled exactly on success. Nothing else is produced: every effect is a toast, the move to "/" when `sign_in_success` holds, or the delayed move to "/signin". Each move occurs at most once: the effects number the toasts plus one for `sign_in_success` plus one for success. |
| `Signup.NavigatesHomeExactlyOnSignIn` | src/routes/Signup.jsx:73-75 | The immediate move to "/" happens if and only if `sign_in_success` holds. |
| `Signup.AtMostOneToast` | src/routes/Signup.jsx:78-89 | At most one toast fires. The error toast fires if and only if the failure condition holds, and the success toast if and only if the success condition holds. |
| `Signin.HandleChange` | src/routes/Signin.jsx:26-28 | The named field takes the event's value. The other field and the visibility flag are unchanged. |
| `Signin.TogglePasswordVisibility` | src/routes/Signin.jsx:50-52 | Flips the visibility flag and leaves the form unchanged. |
| `Signin.ToggleTwice` | src/routes/Signin.jsx:50-52 | Toggling twice restores the state. |
| `Signin.HandleSubmit` | src/routes/Signin.jsx:32-47 | `signInAccount` is sent exactly when the trimmed password has at most 30 and the trimmed email at most 40 code units. The credentials are exactly the trimmed pair. A rejection carries the "Maximum input length exceeded" text. There is no match or minimum rule. |
| `Signin.SignedUpPassesSignin` | src/routes/Signin.jsx:40-46 | Any email and password that sign-up sends also pass sign-in's gate, and sign-in sends the same trimmed values. |
| `Signin.StatusEffects` | src/routes/Signin.jsx:55-68 | At most one toast fires. The error toast fires on done, failed and not successful. The success toast fires on done, not failed and successful. A move to "/" after 500 ms is scheduled exactly on success. Nothing else is produced: every effect is a toast or that delayed move, and the move occurs at most once: the effects number the toasts plus one on success. |
| `Signin.AtMostOneToast` | src/routes/Signin.jsx:56-65 | At most one toast fires. The error toast fires exactly under the failure condition. The success toast fires exactly together with the delayed move to "/". |
| `ChatDetails.ToggleModal` | src/components/Home/ChatBox/ChatDetails.jsx:11-13 | Flips the modal's visibility. |
| `ChatDetails.ToggleModalTwice` | src/components/Home/ChatBox/ChatDetails.jsx:11-13 | Toggling twice restores the visibility. |
| `ChatDetails.GroupAdmin` | src/components/Home/ChatBox/ChatDetails.jsx:16-19 | Gives the name of the first participant whose id is the admin id. Gives an error exactly when no participant has that id. |
| `ChatDetails.GroupAdminIsFirst` | src/components/Home/ChatBox/ChatDetails.jsx:17 | When several participants carry the admin id, the one named is the first in list order. |
| `ChatDetails.Render` | src/components/Home/ChatBox/ChatDetails.jsx:28-60 | A closed modal renders nothing and never fails. An open modal fails exactly when the admin lookup fails, and otherwise shows its content. On success it shows the chat name, the admin's name, a member count equal to the number of participants, and one row per participant in order. |
| `ChatDetails.AdminMemberRenders` | src/components/Home/ChatBox/ChatDetails.jsx:17-18 | A group whose admin is among its participants always renders its open modal. |
| `ChatHeader.SelectedUser` | src/components/Home/ChatBox/ChatHeader.jsx:12 | Gives the first participant whose id differs from the login user's, with no earlier one like it. Gives nothing exactly when every participant has the login user's id. |
| `ChatHeader.Render` | src/components/Home/ChatBox/ChatHeader.jsx:12-27 | A group chat always renders, with the group icon and the chat name. A direct chat fails exactly when there is no other party, and otherwise shows that party's picture and name. The details button shows exactly for groups. The update button shows exactly for groups whose admin is the login user. |
| `ChatHeader.DirectChatShowsOtherParty` | src/components/Home/ChatBox/ChatHeader.jsx:19-21 | In a direct chat between two different people, each sees the other's picture and name, and no group control. |
| `ChatHeader.UpdateGroupImpliesDetailsRender` | src/components/Home/ChatBox/ChatHeader.jsx:25-26 | When the update button shows, the details button shows too. If the login user is a listed participant, the details modal opens without error. |
| `MessageLayout.MessageLayout` | src/components/Home/ChatBox/Mesaage.jsx:5-16 | The four independently computed choices always form one of two layouts. Own messages get end alignment, an unreversed row, right text and left-rounded corners. Everyone else's get the opposite. |
| `MessageLayout.ChoicesAgree` | src/components/Home/ChatBox/Mesaage.jsx:5-16 | Each choice holds its "own message" value exactly when the login id equals the sender id. The four choices are pairwise consistent. |
| `MessageLayout.DependsOnlyOnSelf` | src/components/Home/ChatBox/Mesaage.jsx:5-16 | Two messages with the same self-or-other answer get the same layout, whatever the ids. |

## Findings

| source | as written | input that shows it | evidently intended | confidence | as-written member | corrected member |
|---|---|---|---|---|---|---|
| src/routes/Signup.jsx:56-57 | passwords are rejected when `length < 7`, with the message "Password must be at least 8 characters long" | name "Al", email "a@b.c", password and confirmation "abcdefg" (7 characters) are sent to `createAccount` | reject when `length < 8`, as the message says | medium; not executed | `Signup.SevenCharacterPasswordAccepted` | `Signup.HandleSubmitIntended` |

`Signup.HandleSubmit` stays the model of the page as it behaves. The only
other member that builds on the sign-up outcome is
`Signin.SignedUpPassesSignin`. It is stated for the as-written handler, so by
`Signup.IntendedDiffersOnlyAtSeven` it also covers every form the corrected
handler accepts.

## Left out

- `localStorage` and `JSON.parse` of the login user are left out. The login user's id is a parameter instead.
- The Redux store, `createAccount`, `signInAccount` and the backend are external. The model stops at the record the handler would dispatch, and takes the store's flags and message as parameters.
- Toasts, `navigate` and `setTimeout` are only effect tags. The model keeps the delay in milliseconds but has no timing. It does not model the effect hook's dependency list, that is, when React re-runs it.
- `Signup.HandleChange` and `Signin.HandleChange` take the field from the inputs' own names. An event naming some other key would add a new key to the JavaScript object, and that case is not modelled because no input carries such a name.
- The time label (`toLocaleTimeString`) of a message is left out because it depends on the locale and the clock. So are `console.log` and all JSX, icons, images and CSS classes other than the four conditional layout classes.
- Browser-side `required` and `type="email"` checks are left out because the browser enforces them, not the handlers. The model accepts every string, including empty and whitespace-only ones.
- Trimming uses the ECMAScript whitespace set as listed in `Text.IsWhitespace`. Strings are sequences of Unicode code points, and the UTF-16 `length` is computed from them. Lone surrogates cannot be represented.
- A direct chat has no admin id. The model writes it as `None`, so the update-button test is false there, as `undefined === id` is in the source.
- The `UpdateGroup` component is not part of this model, because its file is not among the modelled ones.
- On both auth pages, `showPassword` and `togglePasswordVisibility` are defined but never used. Neither is passed to the password inputs or referenced anywhere else. On the sign-up page the show/hide icons are imported but not used. As written, the flag has no effect and the toggle cannot be reached from the page. The toggle functions model the handler bodies only.
- The socket connection in src/routes/Home.jsx and the search sidebar in src/components/SearchUsers.jsx are left out. They are network I/O and UI plumbing with no local logic beyond a `trim`.
