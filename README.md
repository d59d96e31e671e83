# DoctorGo mock service, modelled in Dafny

DoctorGo's front end talks to a simulated backend, `src/api/mockService.js`.
That backend is an in-memory repository holding:

- the `providers` array, where each provider carries a cached `queueLength` counter and an `availabilitySlots` list;
- the `bookings` and `payments` arrays;
- the `queueTokens` map from a queue token to a virtual-queue entry.

This project models that repository and the operations that read and change it:

- the virtual queue: join, status check, invite the next patient, postpone, cancel, and the provider's view of the queue;
- bookings: create a booking and list a user's bookings;
- the sandbox payment;
- replacing a provider's availability;
- provider search with its filters and sorts;
- symptom-based recommendations.

Modules, in dependency order:

- `Collections`: first-match lookup (`find`), order-preserving filter (`filter`), and dropping absent values (`filter(Boolean)`).
- `Text`: ASCII lower-casing (`toLowerCase`) and substring search (`includes`).
- `Sorting`: the stable sort the source gets from `Array.prototype.sort` with a numeric comparator. It is proved sorted, a permutation and stable. It is also proved equal to any other stable sort of the same input.
- `Domain`: providers, slots, bookings, payments, queue entries, errors.
- `Queue`: token lookup, the waiting entries of a provider, and the entry `inviteNextPatient` picks. That entry is proved to be the head of the stably sorted waiting list.
- `Records`: the values the booking, payment and availability operations build.
- `Store`: the `Repository` class. Its fields are the arrays and the queue, and its methods are the state-changing operations, each with its whole new state in `ensures`. Its reading functions are `getProviderById`, `getUserBookings` and `getProviderQueue`.
- `Search`: `getProviders`.
- `Recommend`: `getRecommendations`. The method runs the source's nested loops over a score dictionary. The lemmas say what the scores mean and what the ranking keeps.
- `Scenarios`: worked scenarios of the repository showing behaviours of the code as written.

How the JavaScript maps to Dafny:

- The `queueTokens` map is a sequence of entries in insertion order, which is the order `Map.prototype.values` yields them. The class invariant is that tokens are distinct and that every entry's wait is 15 minutes per place.
- Ids the source mints with `generateId` are parameters. The queue token, the booking id and the payment token each come with a precondition that they are not already in use. Fresh slot ids are only required to be non-empty.
- The random draw in `getQueueStatus` (`Math.random() > 0.7`) is a boolean parameter.
- A missing optional string argument (undefined) and the empty string are both falsy in the source. Both are modelled as `""`.
- Numbers that the source computes with (weights, ratings, costs, amounts) are exact reals. Positions and counters are integers.

`joinQueue` places a patient at the provider's cached `queueLength + 1` (`src/api/mockService.js:162`), not behind the number of patients actually waiting. Nothing renumbers the queue after a postpone or a cancel. So positions are not a dense 1..N ranking, and the model does not claim they are. The `Scenarios` module shows three consequences:

- a patient joining at position 6 when nobody is queued;
- a neighbour's position reaching 0;
- a postponed patient staying ahead of a later one.

## Model

| member | source | states |
|---|---|---|
| Collections.FirstIndex | src/api/mockService.js:160-161 | `find`: the result is the first index whose element satisfies the test, and it is absent exactly when no element does |
| Collections.Filter | src/api/mockService.js:148 | `filter`: no longer than the input, and every kept element passes the test |
| Collections.FilterCount | src/api/mockService.js:148 | filtering keeps each passing element with its multiplicity and drops every other one |
| Collections.FilterMembership | src/api/mockService.js:148 | an element is in the filtered list exactly when it is in the list and passes the test |
| Collections.FilterAppend | src/api/mockService.js:127 | filtering distributes over appending, so a pushed record appears at the end of every filtered view that admits it |
| Collections.FilterKeepsOrder | src/api/mockService.js:148 | `filter` keeps order: the k-th kept element is the element at the k-th passing position of the input, those positions increase, and every passing position is among them |
| Collections.Somes | src/api/mockService.js:301 | `filter(Boolean)` over cards or null: never longer than its input |
| Collections.SomesSound | src/api/mockService.js:286-301 | the k-th kept value is the k-th present entry, and the present positions increase, so order is kept |
| Collections.SomesComplete | src/api/mockService.js:286-301 | every present entry is kept |
| Text.LowerChar | src/api/mockService.js:59 | the lowered character is never upper case; an upper-case letter moves up by 32 code points and any other character is unchanged |
| Text.ToLower | src/api/mockService.js:59 | `toLowerCase`: same length, and each character is lowered on its own |
| Text.ToLowerIdempotent | src/api/mockService.js:57-59 | lower-casing an already lowered text changes nothing, which is why both filters ignore the case of their arguments (see `Search.AdmittedIgnoresCase`) |
| Text.Contains | src/api/mockService.js:66 | `includes` holds exactly when the pattern occurs at some index of the text |
| Sorting.SortBySorted | src/api/mockService.js:75-84 | the sorted list is in non-decreasing key order |
| Sorting.SortByPermutes | src/api/mockService.js:75-84 | the sorted list is a permutation of the input (same multiset, same length) |
| Sorting.SortByStable | src/api/mockService.js:486-488 | for every key value, the elements carrying it keep their input order, as in a stable `Array.prototype.sort` |
| Sorting.SortByKeepsSorted | src/api/mockService.js:276 | sorting an already sorted list leaves it as it is |
| Sorting.StableSortUnique | src/api/mockService.js:380-382 | two lists sorted by the same key and holding the same elements per key, in the same order, are equal, so any stable sort gives the modelled result |
| Domain.DecrementFloored | src/api/mockService.js:397 | `Math.max(0, n - 1)`: never negative; one less for a positive counter and zero otherwise |
| Domain.FindProvider | src/api/mockService.js:161 | `providers.find(p => p.id === id)`: the index of the first provider with the id, absent exactly when no provider has it |
| Domain.ErrorMessage | src/api/mockService.js:377 | the provider error and the queue-entry error carry their own, distinct messages |
| Queue.AtPosition | src/api/mockService.js:423-424 | the entry takes the new position and a wait of 15 minutes per place; token, provider, user and status are unchanged |
| Queue.MovedUp | src/api/mockService.js:393-394 | the entry moves one place forward, its wait recomputed from the new position, and nothing else about it changes |
| Queue.TokenIndex | src/api/mockService.js:198 | `queueTokens.get(token)`: the first entry carrying the token, absent exactly when no entry does |
| Queue.WaitingCount | src/api/mockService.js:420-423 | at most the size of the queue, and zero exactly when nobody waits for the provider |
| Queue.RemoveForgetsToken | src/api/mockService.js:448 | deleting an entry keeps the tokens distinct, and the deleted token no longer resolves |
| Queue.NextWaiting | src/api/mockService.js:379-389 | absent exactly when nobody waits for the provider; otherwise a waiting entry with the lowest position that no earlier waiting entry ties |
| Queue.NextWaitingIsSortedHead | src/api/mockService.js:380-389 | that entry is `waitingTokens[0]` after the stable sort by position, and it is absent exactly when the sorted list is empty |
| Records.NewBooking | src/api/mockService.js:116-125 | the booking echoes its ids; it is confirmed, paid and carries the token exactly when a payment token was supplied, and is pending and unpaid otherwise |
| Records.ReserveSlot | src/api/mockService.js:132-135 | the first slot with the id becomes unavailable, every other slot is unchanged, and a missing id changes nothing |
| Records.SandboxPayment | src/api/mockService.js:227-237 | the receipt echoes token, booking id and amount, is completed, in USD, with a receipt URL built from the token and the fixed sandbox card (last four digits 4242, brand Visa) |
| Records.Settled | src/api/mockService.js:243-247 | a settled booking is paid and confirmed, carries the payment token and keeps its ids |
| Records.ReplaceSlots | src/api/mockService.js:465-470 | same length and order; date and time copied; a given id kept and a missing one replaced by the fresh id; unavailable exactly when the input said `false` |
| Records.ResendIsIdentity | src/api/mockService.js:465-470 | sending back the slots read from a provider, all carrying ids, reproduces them exactly |
| Store.Repository.constructor | src/api/mockService.js:19-23 | the repository starts from the fixture arrays with an empty queue |
| Store.Repository.GetProviderById | src/api/mockService.js:99-102 | found exactly when some provider has the id; the result is the first provider with that id |
| Store.Repository.GetUserBookings | src/api/mockService.js:146-149 | exactly the user's bookings, each with its multiplicity, in storage order (the filter of the bookings, whose order `Collections.FilterKeepsOrder` states) |
| Store.Repository.GetProviderQueue | src/api/mockService.js:483-489 | sorted by position, holding exactly the provider's entries (waiting and invited), with equal positions in insertion order |
| Store.Repository.JoinQueue | src/api/mockService.js:158-188 | one waiting entry appended under the new token at `queueLength + 1` (1 for an unknown provider) with a wait of 15 minutes per place; that provider's counter and nothing else grows by one |
| Store.Repository.GetQueueStatus | src/api/mockService.js:195-214 | absent for an unknown token; otherwise only that entry may change, moving up exactly one place and only from above 1, and the view reports its position, wait and status |
| Store.Repository.InviteNextPatient | src/api/mockService.js:373-406 | error for an unknown provider; no change when nobody waits; otherwise the selected entry is invited and returned, every other waiting entry of the provider moves up one place, other entries are unchanged, and the counter drops to `max(0, n - 1)` |
| Store.Repository.PostponePatient | src/api/mockService.js:413-430 | error for an unknown token; otherwise only that entry changes, to the number of waiting entries of its provider, which is returned |
| Store.Repository.CancelQueueEntry | src/api/mockService.js:437-451 | error for an unknown token; otherwise the entry is removed, the token no longer resolves, and the provider's counter drops to `max(0, n - 1)` |
| Store.Repository.CreateBooking | src/api/mockService.js:113-139 | exactly one booking appended; the first matching slot of the first matching provider is reserved, with no error when either is missing; every user's booking list grows by this booking exactly when it is theirs |
| Store.Repository.ProcessSandboxPayment | src/api/mockService.js:223-250 | always succeeds; exactly one completed payment appended; the first booking with the id is settled with the token and no other booking changes |
| Store.Repository.UpdateProviderAvailability | src/api/mockService.js:459-476 | error for an unknown provider; otherwise that provider's slot list, and nothing else, becomes the replaced list, which a later lookup returns |
| Search.MatchesQuery | src/api/mockService.js:64-69 | holds exactly when the query occurs in the lowered name, the lowered specialty or some lowered tag; the empty query matches every provider |
| Search.Admitted | src/api/mockService.js:57-70 | no filter given admits every provider; an admitted provider has the requested specialty up to case (unless it is `all`) and matches the lowered query; each filter alone admits what it accepts, and a provider passing both is admitted |
| Search.AdmittedIgnoresCase | src/api/mockService.js:57-70 | the filters give the same answer for arguments that differ only in case, except that `all` switches the specialty filter off only when written in lower case; `ALL` selects specialties that lower to `all` |
| Search.SortKey | src/api/mockService.js:72-89 | a key exactly for `rating`, `cost`, `queue` and `name`; under each, one provider's key is at most another's exactly when the source's comparator puts it first or ties (higher rating, lower cost, shorter queue, earlier name) |
| Search.GetProviders | src/api/mockService.js:52-92 | exactly the providers passing the specialty and text filters, each with its multiplicity; ordered by the chosen sort (rating descending, cost, queue or name ascending), equal keys in input order; for no sort or an unknown one, in input order |
| Recommend.Weight | src/api/mockService.js:268 | `(length - index) / length`: a weight in (0, 1], and 1 for the first specialty of a keyword |
| Recommend.WeightDecreases | src/api/mockService.js:268 | within one keyword's list the weights lie in (0, 1] and an earlier specialty weighs strictly more |
| Recommend.Lookup | src/api/mockService.js:269 | `specialtyScores[s] \|\| 0`: 0 for a specialty not yet scored, otherwise the score of its (first) entry |
| Recommend.AddScore | src/api/mockService.js:269 | never empty afterwards, and at most one entry longer than before |
| Recommend.AddScoreShape | src/api/mockService.js:269 | a new specialty is appended at the end of the dictionary; a known one keeps the key order |
| Recommend.AddScoreLookup | src/api/mockService.js:269 | adding a weight raises that specialty's score by the weight and no other score |
| Recommend.ScoreKeyword | src/api/mockService.js:267-270 | the inner loop adds at most one new key per specialty it has visited, and the dictionary is non-empty once it has visited any |
| Recommend.ScoreKeywordKeepsKeys | src/api/mockService.js:267-270 | the keys scored before the inner loop keep their order at the front of the dictionary |
| Recommend.ScoreKeywordNames | src/api/mockService.js:267-270 | every key after the inner loop was there before or is one of the specialties it visited |
| Recommend.ScoreTableLookup | src/api/mockService.js:265-272 | every specialty's score is the sum, over the keywords found in the text, of the weight at which the keyword lists it |
| Recommend.ScoreTableShape | src/api/mockService.js:265-272 | the dictionary's keys are distinct, and it is empty exactly when no keyword with a specialty occurs in the text |
| Recommend.ScoreTableNames | src/api/mockService.js:265-272 | every scored specialty is listed under some keyword that occurs in the text |
| Recommend.Ranked | src/api/mockService.js:275-283 | one to three specialties; just General Practice for an empty dictionary; otherwise three names, or one per score if there are fewer (which ones: `Recommend.RankedTop` with `Sorting.SortByStable`, which put the first-scored first among equal scores, and `Recommend.RankedAreTopScores`) |
| Recommend.RankedTop | src/api/mockService.js:275-279 | for a non-empty dictionary the ranking is the names of the first three entries (or all, if fewer) of the dictionary stably sorted by descending score |
| Recommend.RankedAreTopScores | src/api/mockService.js:275-279 | ranked specialties are scored ones in non-increasing score order, and no specialty left out scores more than a ranked one |
| Recommend.NoMatchRanksDefault | src/api/mockService.js:281-283 | with no keyword matched the ranking is General Practice alone; otherwise every ranked specialty was scored |
| Recommend.WeightedLookup | src/api/mockService.js:267-270 | a keyword with distinct specialties scores them strictly decreasing along its list |
| Recommend.WeightedRanked | src/api/mockService.js:275-279 | ranking that keyword's own scores keeps its list order, cut at three |
| Recommend.SingleKeywordRanking | src/api/mockService.js:265-283 | when one keyword alone matches, earlier specialties score strictly more, and the ranking is the first three of its list |
| Recommend.Confidence | src/api/mockService.js:297 | between 0.5 and 0.95, and exactly `0.95 - 0.15 * rank` for the ranks the ranking produces |
| Recommend.Rationale | src/api/mockService.js:298-299 | the specialty's explanation when it has a non-empty one, otherwise "<specialty> specialists can help with your described symptoms"; never empty |
| Recommend.ProviderFor | src/api/mockService.js:287-288 | the first provider whose specialty is exactly the given one, and absent exactly when none has it |
| Recommend.RecommendationAt | src/api/mockService.js:286-300 | a card exactly when that first provider exists, with its id, name and rating, the ranked specialty, the rank's confidence and the rationale |
| Recommend.AssembleSpec | src/api/mockService.js:286-301 | the returned cards are, in rank order, those of the ranked specialties that have a provider, and each such card is returned |
| Recommend.GetRecommendations | src/api/mockService.js:258-304 | at most three cards; the loops compute the score dictionary, and the result is the cards of its ranking |
| Scenarios.JoinThenCancel | src/api/mockService.js:437-451 | on an empty provider, joining gives position 1 and a 15 minute wait, and after cancelling the token has no status |
| Scenarios.JoinBehindCounter | src/api/mockService.js:162 | with five on the counter and nobody queued, the first to join gets position 6, and the counter becomes 6 |
| Scenarios.NeighbourReachesZero | src/api/mockService.js:392-395 | after a status check moves the second patient level with the first, inviting the first leaves the second at position 0 with no wait |
| Scenarios.InviteUnknownProvider | src/api/mockService.js:376-377 | inviting for an unknown provider id fails with the message "Provider not found" and leaves the counter as it was |
| Scenarios.PostponeStaysAhead | src/api/mockService.js:423 | postponing the first of two patients who joined at 6 and 7 puts it at 2, still ahead of the other |

## Left out

- `simulateLatency`, `async`/`await` and timers: every operation is modelled as atomic and immediate.
- `generateId`: the ids it makes from the clock and a random number are parameters, each required to be unused (the queue token, booking id and payment token) or non-empty (the slot ids).
- The probability in `getQueueStatus`: the outcome of the random draw is a boolean parameter.
- ISO timestamps (`joinedAt`, `timestamp`, `paidAt`, `updatedAt`): wall-clock values, not modelled.
- The fixture JSON files (providers, bookings, payments, users, the symptom keyword table and explanations): their contents are not part of this model; they enter as constructor and method parameters.
- `Search.GetProviders`: `localeCompare` for the name sort is a caller-supplied numeric collation key, not a locale's collation.
- `Text.ToLower`: lowers only ASCII letters, not the full Unicode case mapping of `toLowerCase`.
- Floating point: costs, ratings, amounts, weights and confidences are exact reals, so rounding in `0.95 - 0.15 * index` or in score sums is not modelled.
- `Recommend.GetRecommendations`: keys that name properties of `Object.prototype` and the rule that integer-like keys are listed first by `Object.entries` are not modelled; the keyword table and the scores keep insertion order.
- Aliasing: the source returns the stored booking, queue-entry and provider objects themselves, so a caller could change the repository through them; the model returns values.
- `getProviders`' `location` parameter: accepted and never used by the source, so not modelled.
- Authentication (`authenticateUser`, `registerUser`, `updateUserProfile`) and the `users` array: outside the modelled core.
- `resetMockData`: a test helper; the constructor stands for the initial state.
- `src/api/apiContract.js`, the React contexts, pages and components: no service behaviour.
- Display-only fields of providers and bookings (address, coordinates, photos, reviews, biography) are not modelled.
