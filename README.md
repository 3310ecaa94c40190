# Round loader and cart store, modelled in Dafny

This project models two pieces of a grants-platform web frontend. Each is
proved against its own specification.

**The round loader** (`rounds.dfy`, module `Rounds`) models the rounds
feature's Redux action creators and the `loadRound(address)` thunk. The
thunk does the following:

- It checks the address.
- It runs nine fetch steps one after the other, dispatching a
  `ROUNDS_LOADING_ROUND` status before each: the four phase times, the
  token, the round metadata pointer, the round metadata document, the
  application metadata pointer and the application metadata document.
- It injects a project-selection question and a recipient-address question
  into the application schema.
- It dispatches either the assembled round (`ROUNDS_ROUND_LOADED`) or, at
  the first failure, one `ROUNDS_LOADING_ERROR` with that failure's message.

In the model, everything the thunk asks of the outside world is an input
value of type `Sources`: the address check, each contract call's result and
each fetch-and-parse. `LoadRound` returns the log of dispatched actions, in
order. It is proved equal to `ExpectedLog`, a walk over the nine steps.
Lemmas then describe every possible log:

- an invalid address gets only its error;
- a full success gets nine statuses and then the round;
- a failure at step k gets k+1 statuses and then step k's error;
- the loaded round's fields are what was fetched.

The protocol numbers are rendered in decimal by `Decimal.ToDecimal`, the
model of `BigNumber.toString()`. That rendering is proved to read back.

**The cart store** (`cart.dfy`, module `Cart`) models the two `useCart`
handlers and the `CartProvider`:

- Adding is a left fold that appends each project whose `projectRegistryId`
  is not yet present. It is proved equal to a reference definition: the old
  cart followed by the first-seen new projects.
- Removing is a filter. It is characterised by membership, by being a
  subsequence of the old cart, and by how many times each project is left.
- The provider's two effects are synchronous state transitions. A truthy
  round id that becomes active loads that round's stored cart, or `[]` when
  none is stored. Every cart change is saved under the active round when
  its id is truthy; otherwise nothing is saved.

`CartProvider` is a class with the fields `cart`, `currentRoundId` and
`storage`. Its methods are proved to perform exactly those transitions and
to keep the working cart equal to the active round's stored cart.

`options.dfy` holds the `Option` type shared by both modules.

## Model

| member | source | states |
|---|---|---|
| Rounds.RoundLoadedAction | client/src/actions/rounds.ts:60-64 | the action has type `ROUNDS_ROUND_LOADED` and carries the given address and round |
| Rounds.RoundsUnloadedAction | client/src/actions/rounds.ts:66-68 | the action has type `ROUNDS_UNLOADED` |
| Rounds.LoadingErrorAction | client/src/actions/rounds.ts:70-74 | the action has type `ROUNDS_LOADING_ERROR` and carries the given address and error |
| Rounds.UnloadRounds | client/src/actions/rounds.ts:76 | the exported creator yields the `ROUNDS_UNLOADED` action |
| Rounds.TypeOf | client/src/actions/rounds.ts:28-58 | the `type` field of each action; `ActionTypesDistinct` states that it decides the kind of action |
| Rounds.ActionTypesDistinct | client/src/actions/rounds.ts:28-58 | two actions have the same type string exactly when they are the same kind of action |
| Rounds.MessagesDistinct | client/src/actions/rounds.ts:83-249 | the ten error messages are pairwise different, so the message identifies the failed check or step |
| Rounds.Message | client/src/actions/rounds.ts:83-249 | the error string dispatched for each failure; its strings are pairwise distinct by `MessagesDistinct` |
| Rounds.ProjectQuestion | client/src/actions/rounds.ts:15-26 | the project question spread with its `id` (line 237); `InjectedShape` states it heads the injected schema with id n and kind "PROJECT" |
| Rounds.RecipientQuestion | client/src/actions/rounds.ts:15-26 | the recipient question spread with its `id` (line 244); `InjectedShape` states it ends the injected schema with id n+1 and kind "RECIPIENT" |
| Rounds.WithInjectedQuestions | client/src/actions/rounds.ts:236-246 | the schema after `unshift` and `push`; `InjectedShape`, `InjectionRecoversOriginal` and `InjectedIdsDistinct` state its shape |
| Rounds.SchemaOf | client/src/actions/rounds.ts:230-236 | the schema the injection reads, `applicationSchema` or else `application_schema`; `ApplicationMetadataStepOk` and `MissingSchemaFailsLoad` state when it holds a list |
| Rounds.Injected | client/src/actions/rounds.ts:230-247 | the document after injection; `InjectedShape`, `InjectionRecoversOriginal` and `InjectedIdsDistinct` state its shape, and `InjectQuestions` is proved to compute it |
| Rounds.InjectQuestions | client/src/actions/rounds.ts:230-247 | the step-by-step injection (fallback to `application_schema`, `unshift`, record id, `push`, record id) fails exactly when the schema key holds no list, and otherwise yields `Injected` |
| Rounds.InjectedShape | client/src/actions/rounds.ts:230-247 | after injection the schema has length n+2; the project question with id n comes first, then the n original questions in order, then the recipient question with id n+1; both ids are recorded; with the legacy key both keys hold the new list |
| Rounds.InjectionRecoversOriginal | client/src/actions/rounds.ts:236-246 | dropping the first and last entries of the injected schema gives back the original questions |
| Rounds.InjectedIdsDistinct | client/src/actions/rounds.ts:235-246 | if the original ids are distinct and below n, all ids after injection are distinct and below n+2 |
| Rounds.InjectionNotIdempotent | client/src/actions/rounds.ts:230-247 | injecting twice adds a second pair of questions: nothing guards against re-injection |
| Rounds.ApplicationMetadataStepOk | client/src/actions/rounds.ts:226-252 | the last step succeeds exactly when the document is fetched and parsed and its schema key holds a list |
| Rounds.LoadRound | client/src/actions/rounds.ts:78-274 | the dispatched actions, in order, are exactly `ExpectedLog`: the address error, or one status per step tried, closed by the first failing step's error or by the loaded round |
| Rounds.InvalidAddressLog | client/src/actions/rounds.ts:79-86 | a rejected address dispatches only its error and runs no step |
| Rounds.SuccessfulLoadLog | client/src/actions/rounds.ts:92-273 | when every step succeeds, the log is the nine statuses in order and then the loaded round, and contains no error |
| Rounds.FailedAtStepLog | client/src/actions/rounds.ts:92-252 | when step k is the first to fail, the log is the first k+1 statuses and then step k's error; no later step runs and no round is dispatched |
| Rounds.FirstFailureIsFirst | client/src/actions/rounds.ts:92-252 | `FirstFailure` returns a step that fails, and every step before it succeeds |
| Rounds.LogShape | client/src/actions/rounds.ts:78-274 | every log is 1 to 10 actions: statuses in step order, then one terminal action for the same address; it is the loaded round exactly when the address is valid and all steps succeed, and then the log has length 10 |
| Rounds.AssembledRound | client/src/actions/rounds.ts:254-271 | the round record; `LoadedRoundFields` states each of its fields |
| Rounds.LoadedRoundFields | client/src/actions/rounds.ts:254-273 | the loaded round carries the address, the fetched times, token, pointers and metadata; each protocol is `ToDecimal` of the fetched number, so it is the canonical digit string that reads back as that number |
| Rounds.MissingSchemaFailsLoad | client/src/actions/rounds.ts:226-252 | a document with neither schema key ends the load with "error loading application metadata" |
| Decimal.ToDecimal | client/src/actions/rounds.ts:262-267 | `BigNumber.from(p).toString()`; `ToDecimalDigits`, `FromToDecimal` and `ToDecimalInjective` state its format, read-back and injectivity |
| Decimal.ToDecimalDigits | client/src/actions/rounds.ts:262 | the rendered protocol is a non-empty digit string with no leading zero unless it is "0" |
| Decimal.FromToDecimal | client/src/actions/rounds.ts:261-268 | reading the rendered protocol back as a decimal number gives the original number |
| Decimal.ToDecimalInjective | client/src/actions/rounds.ts:261-268 | distinct protocol numbers render to distinct strings |
| Cart.Find | packages/grant-explorer/src/context/CartContext.tsx:79-82 | finds a project exactly when some project in the list has the key, and what it finds is in the list and has that key |
| Cart.FindIsFirst | packages/grant-explorer/src/context/CartContext.tsx:79-82 | what `Find` returns is the first project in the list with that key |
| Cart.AddOne | packages/grant-explorer/src/context/CartContext.tsx:79-83 | one reduce step: keep the accumulator when the key is present, else append; its meaning is given by `AddAppendsFirstSeen` |
| Cart.AddProjects | packages/grant-explorer/src/context/CartContext.tsx:78-84 | the reduce over the projects to add, starting from the cart; `AddAppendsFirstSeen` and the `Add…` lemmas below state what it yields |
| Cart.AddAppendsFirstSeen | packages/grant-explorer/src/context/CartContext.tsx:76-84 | the reduce equals the old cart followed by the projects whose key is neither in the cart nor on an earlier input project |
| Cart.AddKeepsCart | packages/grant-explorer/src/context/CartContext.tsx:78-84 | the old cart is a prefix of the result, and the new entries form a subsequence of the input |
| Cart.AddKeys | packages/grant-explorer/src/context/CartContext.tsx:78-84 | after adding, the keys are exactly the old keys plus every input key |
| Cart.AddFirstSeenWins | packages/grant-explorer/src/context/CartContext.tsx:76-84 | for a key already in the cart, the cart's entry is kept; for any other key, the entry is the first input project with that key |
| Cart.AddKeepsKeysUnique | packages/grant-explorer/src/context/CartContext.tsx:76-84 | a cart with unique keys still has unique keys after adding |
| Cart.AddIdempotent | packages/grant-explorer/src/context/CartContext.tsx:78-84 | adding the same list twice gives the same cart as adding it once |
| Cart.RemoveProjects | packages/grant-explorer/src/context/CartContext.tsx:91-97 | the filter over the cart; `RemoveMembers`, `RemoveIsSubsequence` and `RemoveCounts` characterise it |
| Cart.RemoveMembers | packages/grant-explorer/src/context/CartContext.tsx:89-98 | a project remains exactly when it was in the cart and its key matches no project to remove |
| Cart.RemoveIsSubsequence | packages/grant-explorer/src/context/CartContext.tsx:91-97 | the result is the cart with entries dropped and the rest in their original order |
| Cart.RemoveCounts | packages/grant-explorer/src/context/CartContext.tsx:91-97 | each project is left exactly as many times as it was in the cart, or not at all when its key is removed |
| Cart.RemoveKeys | packages/grant-explorer/src/context/CartContext.tsx:91-97 | the keys left are the cart's keys minus the removed keys: no removed key remains |
| Cart.RemoveNonMembers | packages/grant-explorer/src/context/CartContext.tsx:89-98 | removing projects whose keys are not in the cart leaves the cart unchanged |
| Cart.RemoveIdempotent | packages/grant-explorer/src/context/CartContext.tsx:91-97 | removing the same list twice gives the same cart as removing it once |
| Cart.RemoveUndoesAdd | packages/grant-explorer/src/context/CartContext.tsx:76-98 | removing a list right after adding it gives the same cart as removing it alone |
| Cart.RemoveKeepsKeysUnique | packages/grant-explorer/src/context/CartContext.tsx:91-97 | a cart with unique keys still has unique keys after removing |
| Cart.Truthy | packages/grant-explorer/src/context/CartContext.tsx:36-44 | the `if (currentRoundId)` guard: a present, non-empty id; `SwitchRoundFalsy` and `CartChangedSaves` state the falsy case |
| Cart.Activate | packages/grant-explorer/src/context/CartContext.tsx:35-47 | the two effect bodies for a truthy id, load then save; `MountLoads` and `SwitchRoundLoads` state it |
| Cart.LoadCart | packages/grant-explorer/src/context/CartContext.tsx:37-38 | the stored cart for a round, or `[]` when none is stored; used by `MountLoads` and `SwitchRoundLoads` |
| Cart.Mount | packages/grant-explorer/src/context/CartContext.tsx:30-47 | the state after mounting and both effects; `MountLoads` states it |
| Cart.SwitchRound | packages/grant-explorer/src/context/CartContext.tsx:35-47 | the state after the round id changes and both effects run; `SwitchRoundLoads` and `SwitchRoundFalsy` state it |
| Cart.CartChanged | packages/grant-explorer/src/context/CartContext.tsx:43-47 | the state after `setCart` and the save effect; `CartChangedSaves` states it |
| Cart.MountLoads | packages/grant-explorer/src/context/CartContext.tsx:30-47 | mounting on a truthy round gives that round's stored cart or `[]`, stores it under that round only, and leaves the state synced; on a falsy round the cart is `[]` and storage is untouched |
| Cart.SwitchRoundLoads | packages/grant-explorer/src/context/CartContext.tsx:35-47 | switching to a different truthy round makes the cart that round's stored cart or `[]`, whatever it was before; it is saved under that round and other rounds are untouched |
| Cart.SwitchRoundFalsy | packages/grant-explorer/src/context/CartContext.tsx:35-47 | switching to a falsy round id loads nothing and saves nothing |
| Cart.CartChangedSaves | packages/grant-explorer/src/context/CartContext.tsx:43-47 | a cart change under a truthy round stores the new cart under that round and no other; under a falsy round nothing is stored |
| Cart.TransitionsKeepSynced | packages/grant-explorer/src/context/CartContext.tsx:35-47 | every round switch and cart change keeps the working cart equal to the active round's stored cart |
| Cart.EditsStayInRound | packages/grant-explorer/src/context/CartContext.tsx:43-47 | any run of cart changes keeps the active round and leaves every other round's stored cart unchanged |
| Cart.SwitchBackRestores | packages/grant-explorer/src/context/CartContext.tsx:35-47 | switching from R1 to R2, changing the cart there any number of times and switching back gives R1's cart as last saved |
| Cart.CartProvider.constructor | packages/grant-explorer/src/context/CartContext.tsx:30-47 | mounting sets the state to `Mount` of the storage and round id, which is synced |
| Cart.CartProvider.SetCurrentRoundId | packages/grant-explorer/src/context/CartContext.tsx:31-47 | a new round id from the round context performs `SwitchRound` and keeps the state synced |
| Cart.CartProvider.SetCart | packages/grant-explorer/src/context/CartContext.tsx:43-47 | `setCart` followed by the save effect performs `CartChanged` and keeps the state synced |
| Cart.CartProvider.AddProjectsToCart | packages/grant-explorer/src/context/CartContext.tsx:76-87 | the add handler sets the cart to the reduce over the old cart and saves it |
| Cart.CartProvider.RemoveProjectsFromCart | packages/grant-explorer/src/context/CartContext.tsx:89-99 | the remove handler sets the cart to the filtered old cart and saves it |

## Left out

- Address validation is a boolean input. The checksum rules of `ethers.utils.getAddress` belong to the ethers library.
- Contract calls, `fetchText` and `JSON.parse` are inputs: one outcome per step. The metadata fetches are functions of the pointer. The network, the signer, the ABI and the Pinata client are not modelled. The model assumes that the round contract and Pinata client constructors, which run outside any `try`, succeed; if either threw, nothing would be dispatched.
- `BigNumber.toNumber()` throws when a time is too large. That throw is part of the step's failed outcome and is not modelled separately.
- The round metadata document is an opaque value, because the loader passes it on unchanged.
- Only the fields of the application metadata that the injection reads or writes are modelled.
- Any non-list value under the schema key is one case, `NotAList`, because `.length` or `unshift` throws on it.
- `console.error`, `async`/`await` scheduling and the `Dispatch` plumbing are left out. The log of dispatched actions stands for them.
- An error action carries a `LoadError` instead of a string. `Message` gives the exact string the source dispatches for each `LoadError`.
- The `Status` enumeration comes from the rounds reducer, which is not part of this model. Only the nine values the loader dispatches are modelled.
- Rounds.InjectQuestions: works on a copy of the parsed document. The in-place mutation of the parsed object is not modelled beyond the aliasing of the two schema keys.
- `projectQuestionId` is the original schema length n: the project question sits at index 0 but carries id n.
- A cart `Project` keeps only its registry id, application id, recipient and application index. Its metadata, status and form answers are carried along by the source and never inspected.
- Local storage is a map from round id to cart. Serialisation and the LocalStorage helper module are not part of this model.
- React machinery is left out: context creation, `useContext`, rendering and the `useCart` guard against a missing provider. The two effects are synchronous update rules.
- Cart.CartProvider.AddProjectsToCart and Cart.CartProvider.RemoveProjectsFromCart read the latest cart. In the source, the handlers read the `cart` of the last render, so two calls before a re-render would lose the first update; the model does not reproduce that.
- On mount and on a round switch, React's save effect first writes the previous cart (`[]` on mount) under the round. The re-render right after overwrites that write, and the model keeps only the final state.
- The test utilities file is not modelled.
