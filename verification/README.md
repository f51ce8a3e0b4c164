# User registry — Dafny model

A model of UsersApp, a command-line registry of users. Each user has a name and an age. The operator types `list`, `add`, `remove` or `quit` at a prompt. `add` asks for a name and an age, and `remove` asks for a name. The store is an in-memory, ordered list of records.

The model has three modules:

- `Names` (names.dfy): name normalisation. The name is lower-cased, and then its first character is upper-cased. This is the `Message.toLowerCase().capitalize()` chain.
- `Users` (users.dfy): the record store (`UsersData`). `Add` validates the input, normalises the name and appends the record. `Remove` normalises the target and filters out every exact match. `ShowAll` prints a heading and then either the table or a "no data" error. Each operation returns the new sequence and the notifications it would show. A notification is a severity (`Success`, `Error`, `Info`) with the source's message text, or the table itself.
- `App` (app.dfy): the `startApp` command switch as a pure `Step`, and the prompt loop as `Run`. `Run` is a fold over a finite script of turns that stops after the first `quit`.

## Model

| member | source | states |
|---|---|---|
| Names.LowerChar | src/index.ts:42-45 | an ASCII capital maps to the small letter 32 code points above it, every other character is kept, and the result is never a capital |
| Names.UpperChar | src/index.ts:34-35 | an ASCII small letter maps to the capital 32 code points below it, every other character is kept, and the result is never a small letter |
| Names.Capitalize | src/index.ts:34-37 | the length is kept, the first character is upper-cased and the rest of the string is unchanged; `""` stays `""` |
| Names.Lower | src/index.ts:42-45 | lower-casing keeps the length and maps each character on its own: ASCII capitals become small letters, and everything else is kept |
| Names.Normalize | src/index.ts:34-45 | the result has the input's length. Its first character is the upper-case form of the input's first character, and every later character is lower-cased. `""` maps to `""` |
| Names.NormalizeIsNormal | src/index.ts:82-83 | every normalised name is in normal form: no small letter first, and no capital after the first character |
| Names.NormalizeFixedPoints | src/index.ts:82-83 | `Normalize(s) == s` exactly when `s` is in normal form |
| Names.NormalizeIdempotent | src/index.ts:82-83 | normalising a name that is already normalised changes nothing |
| Names.NormalizeCaseInsensitive | src/index.ts:83 | two names normalise to the same string if and only if they differ only in ASCII letter case |
| Names.NormalizeExamples | src/index.ts:93-94 | `""` maps to `""`; `"bob"`, `"BOB"` and `"Bob"` all map to `"Bob"`; `"alice"` maps to `"Alice"` |
| Names.CaseFold | src/index.ts:34-45 | lower-casing an upper-cased character gives its lower-case form, and the reverse holds too |
| Names.UpperLowerInjective | src/index.ts:34-45 | capitalising a lower-cased character gives the same result for two characters exactly when they are the same letter up to case |
| Users.CountNamed | src/index.ts:96-98 | the number of records that carry a name is positive exactly when some record carries it |
| Users.Without | src/index.ts:96 | the filter keeps exactly the stored records whose name differs from the key, so no survivor carries the key. It never adds records |
| Users.WithoutLength | src/index.ts:96-98 | the filtered length is the old length minus the number of records that carry the key |
| Users.WithoutAppend | src/index.ts:96 | filtering preserves order: filtering `a + b` is filtering `a`, then `b`, and concatenating the results |
| Users.WithoutAbsent | src/index.ts:96-98 | filtering out a name that no record carries returns the store unchanged |
| Users.WithoutIdempotent | src/index.ts:96 | filtering the same name twice gives the same result as filtering it once |
| Users.Add | src/index.ts:75-90 | valid input (non-empty name, numeric age above zero) appends exactly one record `{Normalize(name), age}` at the end. Earlier records are unchanged, and the notification is Success. Any other input leaves the store identical and gives the "Wrong data!" Error |
| Users.AddKeepsValid | src/index.ts:75-85 | if every stored record has a non-empty normalised name and a positive age, this still holds after `add` |
| Users.Remove | src/index.ts:92-104 | the new store is exactly the old one filtered by `name != Normalize(target)`, and its length drops by the number of records that carry that name. The result is Success when at least one record matched. When none matched, the store is unchanged and the result is the "User not found..." Error. This includes the empty store |
| Users.RemoveKeepsValid | src/index.ts:92-99 | removal keeps only records that were already stored, so a valid store stays valid |
| Users.RemoveTwice | src/index.ts:96-103 | removing the same name a second time always reports "not found" and changes nothing |
| Users.AddThenList | src/index.ts:66-85 | after a valid `add`, `list` shows a table of the earlier records followed by exactly one new record `{Normalize(name), age}` |
| Users.ShowAll | src/index.ts:66-73 | `list` never changes the store. It shows the "Users data" heading, then the "No data..." Error exactly when the store is empty, and otherwise the table of all records |
| App.Classify | src/index.ts:4-9 | command tokens are matched exactly and case-sensitively against `list`, `add`, `remove` and `quit` |
| App.Step | src/index.ts:125-156 | `quit` shows "Bye Bye!" as Info and is the only command that stops the loop. An unknown token leaves the store unchanged, shows the "Command not found" Error, and the loop continues. `list` keeps the store and shows exactly what `ShowAll` shows, so it reports no data exactly when the store is empty. `add` and `remove` change the store and report as the store operations do |
| App.StepKeepsValid | src/index.ts:125-156 | no round of the loop stores a record that `add` would have refused |
| App.HasQuitAt | src/index.ts:149-151 | a script counts as containing `quit` exactly when some position in it holds a turn whose token is `quit` |
| App.Run | src/index.ts:119-160 | the loop ends by `quit` exactly when the script contains a `quit` turn. A valid store stays valid over any script |
| App.RunAppend | src/index.ts:119-160 | running two scripts back to back, when the first has no `quit`, gives the same result as running the second from where the first left off |
| App.RunStopsAtQuit | src/index.ts:149-151 | turns after a `quit` are never read: appending them does not change the outcome |
| App.BobScenario | src/index.ts:75-104 | add `bob`/30 to an empty store, which gives `[{Bob, 30}]`. Removing `BOB` then empties the store and reports Success. Removing `Bob` again reports "not found" |
| App.EmptyNameScenario | src/index.ts:66-90 | adding an empty name to an empty store is refused with an Error, and listing the store afterwards reports no data |

## Left out

- Terminal I/O. The `inquirer` prompts and the `consola`/`console` output (src/index.ts:1-2, 46-60, 108-117) are replaced by scripted `Turn` values and returned `Notice` lists. The startup banner is not modelled.
- Asynchrony. The promise-based recursion of `startApp` (src/index.ts:119-160) becomes the fold `Run` over a finite script. An operator who never types `quit` corresponds to a script without a `quit` turn.
- Unicode case mapping. JavaScript's `toLowerCase`/`toUpperCase` follow the full Unicode tables, including characters that expand (`ß` to `SS`). The model maps only ASCII `a`-`z`/`A`-`Z` and leaves every other character unchanged.
- Non-integer ages. The numeric prompt yields a JavaScript number. The model keeps integer ages (`Num`) and `NaN` for non-numeric input. `NaN` fails the `age > 0` test and is refused like any non-positive age. Several values that a JavaScript number can take are not represented. Fractional ages such as 2.5 are missing. `Infinity` is missing too: an input such as `1e400` passes `age > 0` and is stored. Integers above 2^53 are also missing, and the source rounds those.
- The `typeof` checks on `add` (src/index.ts:77, 79). The prompts always yield a string name and a number (or NaN) for age, so the types carry these checks.
- `Message.toUpperCase` (src/index.ts:38-41). It is never called.
- The `!this.data` test in `showAll` (src/index.ts:68). The store always exists, so only the empty-store case is modelled.
