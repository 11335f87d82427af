# nusa-wallet network configuration and bookkeeping, in Dafny

This project models the configuration and bookkeeping layer of the nusa-wallet mobile EVM
wallet. It covers:

- **The predefined networks.** These are the six entries of `NETWORKS`: Syscoin NEVM and its
  testnet, Ethereum and Sepolia, Polygon and Rollux.
- **The network selection stores.** There are two variants, the newer Pinia store and the older
  one. Each keeps three things: the selected key, the user's custom networks, and per-network
  field overrides. Both resolve the selected key to an effective `NetworkInfo`. Storage is a
  key-value store held in the class.
- **The validated list of custom networks.** Chain IDs are checked on add and update.
- **User RPC URLs.** One URL is kept per network, trimmed.
- **Imported tokens.** They are kept per network, with addresses de-duplicated regardless of case.
- **The transaction history.** It is one list, newest first, stored in its network's bucket.
- **The watchers.** One watcher drives transaction statuses from receipts and confirmation
  waits. The other two report native and token balances on every block.

**JavaScript data.** JavaScript objects are maps from property name to value. A present
property may hold `undefined` or `null`, so the empty-value stripping of `setOverride` is stated
exactly. String-keyed records whose key order matters (`state.custom` as `Object.values` lists
it) carry their insertion order. The JavaScript built-ins the code relies on are written out:
`trim`, `toLowerCase`, `String(n)` and `parseInt`.

**State and storage.** Module-level state and the storage documents are fields of classes. Each
method states its new state through a pure function. The properties are proved about those
functions.

**External inputs.** Provider answers are parameters of the methods that receive them. These
are balances, receipts, confirmation waits and token balances. The watchers record what they
do, in order, as a trace of effects.

**Where the documented behaviour and the code differ, the model follows the code:**

- **Blank override values.** The newer store strips `''`, `null` and `undefined` from every
  override field, not only from `rpcUrl`. The older store strips nothing, so a blank `rpcUrl`
  override resolves to `''`. Neither treats `rpcUrl` differently from the other fields.
- **Blank RPC URLs.** The doc comment of `setCustomRpcUrl` says a blank URL removes the
  network's entry. The code leaves the map unchanged instead.
- **Visibility listeners are never removed.** `trackTx` removes `checkReceipt` as a
  `visibilitychange` listener, but the listener it registered is `onVisible`. The foreground
  listener therefore stays after the receipt is found.
- **Behaviour the code does not have, which is not claimed here:**
  - transaction statuses are not monotonic;
  - `addTx` does not de-duplicate by hash;
  - the store's `addCustom` does not check chain IDs;
  - stop functions do not clear the watch slot.

## Model

| member | source | states |
|---|---|---|
| Networks.Predefined | packages/wallet-core/ethereum/network.ts:3-63 | every predefined key names a complete `NetworkInfo` whose `key` is that same name, all six fields present, with a non-empty RPC URL |
| Networks.NetworkKeys | packages/wallet-core/ethereum/network.ts:3-54 | `NetworkKey` is exactly the six names, and the default `'syscoin'` is one of them |
| Networks.PredefinedChainIds | apps/mobile-wallet/src/utils/customNetwork.ts:26 | the predefined chain-ID list has one entry per network, in list order |
| Networks.PredefinedChainIdList | packages/wallet-core/ethereum/network.ts:7-47 | the predefined chain IDs are 57, 5700, 1, 11155111, 137 and 570, in that order |
| Networks.PredefinedChainIdsDistinct | packages/wallet-core/ethereum/network.ts:7-47 | no chain ID appears twice in the predefined list |
| Networks.ChainIdsDistinctByKey | packages/wallet-core/ethereum/network.ts:3-52 | two different predefined keys have different chain IDs |
| Networks.NetworkListIsTable | packages/wallet-core/ethereum/network.ts:3-52 | the network list has no repeated entry, each of its entries is the `NETWORKS` entry stored under that entry's own key, and every `NETWORKS` entry is in it |
| NetworkSelection.Resolve | apps/mobile-wallet/src/stores/network.ts:79-83 | resolution succeeds iff the key is predefined or custom, else fails with "Unknown key"; predefined wins over custom; each override field replaces the base field, and every other base field is kept |
| NetworkSelection.PredefinedShadowsCustom | apps/mobile-wallet/src/stores/network.ts:80 | a predefined key resolves the same whatever custom networks exist |
| NetworkSelection.NoOverrideIsPredefined | apps/mobile-wallet/src/stores/network.ts:80-82 | without an override a predefined key resolves to its table entry unchanged |
| NetworkSelection.AllNetworks | apps/mobile-wallet/src/stores/network.ts:65-68 | the list is the six predefined networks in order, then the custom ones in key insertion order |
| NetworkSelection.CustomNetworksListed | apps/mobile-wallet/src/stores/network.ts:65-68 | every custom network appears in the list |
| NetworkSelection.AddCustom | apps/mobile-wallet/src/stores/network.ts:95-97 | the network is stored under `String(n.key)`, replacing any entry there; a new key goes last in order, an existing one keeps its place |
| NetworkSelection.UpdateCustom | apps/mobile-wallet/src/stores/network.ts:100-102 | a missing key is the TypeError case; otherwise the patch's fields overwrite those of the entry, its other fields stay, and keys, order and other entries are unchanged |
| NetworkSelection.RemoveCustom | apps/mobile-wallet/src/stores/network.ts:105-106 | the key is gone; every other entry stays, and the other keys keep their order |
| NetworkSelection.RemovedCustomIsUnknown | apps/mobile-wallet/src/utils/network.ts:54-81 | after its removal a non-predefined key no longer resolves |
| NetworkSelection.Clean | apps/mobile-wallet/src/stores/network.ts:113-115 | the cleaned patch has exactly the fields whose value is not `''`, `null` or `undefined`, with their values |
| NetworkSelection.SetOverrideStripped | apps/mobile-wallet/src/stores/network.ts:111-119 | other keys' overrides are unchanged; the override for `k` exists iff some field survives stripping, and then surviving fields win over the old override's fields |
| NetworkSelection.SetOverrideRaw | apps/mobile-wallet/src/utils/network.ts:84-87 | other keys unchanged; an object with no keys removes the override, any other is merged field by field as given |
| NetworkSelection.StrippedToNothing | apps/mobile-wallet/src/stores/network.ts:113-118 | a patch whose every value is `''`, `null` or `undefined` leaves no override |
| NetworkSelection.SetOverridePreservesClean | apps/mobile-wallet/src/stores/network.ts:111-119 | the stripping version never stores `{}` or an empty value |
| NetworkSelection.CleanOverrideKeepsRpcUrl | apps/mobile-wallet/src/stores/network.ts:79-119 | with clean overrides (string-valued URLs), every predefined network resolves to a non-empty RPC URL |
| NetworkSelection.ResolveRaw | apps/mobile-wallet/src/utils/network.ts:84-87 | under an override stored without stripping, every field of the patch wins as given |
| NetworkSelection.BlankRpcUrlOverride | apps/mobile-wallet/src/utils/network.ts:84-87 | for any predefined network, a blank URL override is ignored by the newer store, which keeps the predefined URL, and stored by the older one, which resolves to `''` |
| NetworkSelection.BlankLabelOverride | apps/mobile-wallet/src/stores/network.ts:113-118 | for any predefined network, a blank label is dropped by the newer store just like a blank URL, and stored by the older one |
| NetworkSelection.RawOverrideCanUnsetField | apps/mobile-wallet/src/utils/network.ts:84-87 | for any predefined network, without stripping an `undefined` field hides the predefined value; the newer store drops it |
| NetworkStore.NetworkStore.constructor | apps/mobile-wallet/src/stores/network.ts:14-28 | the default state over whatever storage holds, not yet ready |
| NetworkStore.NetworkStore.SelectedInfo | apps/mobile-wallet/src/stores/network.ts:79-83 | fails exactly when the selected key is neither predefined nor custom, with that key |
| NetworkStore.NetworkStore.ListNetworks | apps/mobile-wallet/src/stores/network.ts:65-68 | six predefined entries plus one per custom network |
| NetworkStore.NetworkStore.Load | apps/mobile-wallet/src/stores/network.ts:30-41 | saved custom networks and overrides replace the defaults; the selection is the saved `selectedNetwork` or `'syscoin'`; the store becomes ready and nothing is written |
| NetworkStore.NetworkStore.Persist | apps/mobile-wallet/src/stores/network.ts:43-55 | once ready, `netconf` is the whole state; before that, nothing is written |
| NetworkStore.NetworkStore.Select | apps/mobile-wallet/src/stores/network.ts:89-92 | the key is selected unchecked; once the store is ready it is also written to `selectedNetwork` and `netconf` |
| NetworkStore.NetworkStore.AddCustom | apps/mobile-wallet/src/stores/network.ts:95-97 | custom becomes `AddCustom` of the old custom networks and is persisted |
| NetworkStore.NetworkStore.UpdateCustom | apps/mobile-wallet/src/stores/network.ts:100-102 | fails, changing nothing, iff the key is not custom; otherwise the merged entry is stored and persisted |
| NetworkStore.NetworkStore.RemoveCustom | apps/mobile-wallet/src/stores/network.ts:105-108 | the custom network is deleted and `'syscoin'` is selected, so the selection always resolves afterwards |
| NetworkStore.NetworkStore.SetOverride | apps/mobile-wallet/src/stores/network.ts:111-119 | overrides become the stripped update and stay clean if they were |
| LegacyNetworkStore.LegacyNetworkStore.constructor | apps/mobile-wallet/src/utils/network.ts:13-27 | the default state over whatever storage holds, not yet ready |
| LegacyNetworkStore.LegacyNetworkStore.SelectedInfo | apps/mobile-wallet/src/utils/network.ts:54-58 | fails exactly when the selected key is neither predefined nor custom |
| LegacyNetworkStore.LegacyNetworkStore.ListNetworks | apps/mobile-wallet/src/utils/network.ts:40-43 | six predefined entries plus one per custom network |
| LegacyNetworkStore.LegacyNetworkStore.Load | apps/mobile-wallet/src/utils/network.ts:29-34 | every saved property, the selection included, replaces the current one, and the watcher writes the merged state back |
| LegacyNetworkStore.LegacyNetworkStore.Persist | apps/mobile-wallet/src/utils/network.ts:90 | once storage exists, `netconf` is the whole state |
| LegacyNetworkStore.LegacyNetworkStore.Select | apps/mobile-wallet/src/utils/network.ts:64-66 | the key is selected unchecked and persisted only through `netconf` |
| LegacyNetworkStore.LegacyNetworkStore.AddCustom | apps/mobile-wallet/src/utils/network.ts:69-71 | as in the newer store |
| LegacyNetworkStore.LegacyNetworkStore.UpdateCustom | apps/mobile-wallet/src/utils/network.ts:74-76 | as in the newer store |
| LegacyNetworkStore.LegacyNetworkStore.RemoveCustom | apps/mobile-wallet/src/utils/network.ts:79-81 | only the custom network is deleted; a selection naming it stops resolving |
| LegacyNetworkStore.LegacyNetworkStore.SetOverride | apps/mobile-wallet/src/utils/network.ts:84-87 | overrides become the unstripped update |
| CustomNetworks.Add | apps/mobile-wallet/src/utils/customNetwork.ts:26-38 | a predefined chain ID is refused first, then one a custom network already has; otherwise the network is appended and nothing else changes |
| CustomNetworks.AddPreservesValid | apps/mobile-wallet/src/utils/customNetwork.ts:28-38 | a successful add keeps custom chain IDs distinct and apart from the predefined ones |
| CustomNetworks.AddAllValid | apps/mobile-wallet/src/utils/customNetwork.ts:23-40 | any run of adds from a valid list leaves it valid |
| CustomNetworks.FindKey | apps/mobile-wallet/src/utils/customNetwork.ts:50 | the first index whose key matches, or none when there is no entry with that key |
| CustomNetworks.Update | apps/mobile-wallet/src/utils/customNetwork.ts:47-61 | a missing key is "not found"; a predefined chain ID is refused unless it equals `parseInt(key)`; otherwise exactly the found entry is replaced wholesale |
| CustomNetworks.UpdateMayDuplicateChainId | apps/mobile-wallet/src/utils/customNetwork.ts:55-61 | an update can give two custom networks the same chain ID, which add refuses |
| CustomNetworks.KeyNamesDecimalChainId | apps/mobile-wallet/src/utils/customNetwork.ts:57 | a key that is `String(n)` passes the check for chain ID `n`, so the key `'57'` may take Syscoin's chain ID |
| CustomNetworks.UpdateMayTakePredefinedChainId | apps/mobile-wallet/src/utils/customNetwork.ts:55-61 | when the key parses to a predefined chain ID, the update succeeds and leaves the list with a predefined chain ID |
| CustomNetworks.DeleteKey | apps/mobile-wallet/src/utils/customNetwork.ts:72 | the result keeps exactly the entries with another key; an absent key changes nothing |
| CustomNetworks.DeleteDistributes | apps/mobile-wallet/src/utils/customNetwork.ts:72 | deletion distributes over concatenation, so the remaining entries keep their order and number |
| CustomNetworks.DeleteOne | apps/mobile-wallet/src/utils/customNetwork.ts:72 | a single entry survives exactly when its key differs; with the previous row, every entry with the key is dropped wherever it stands |
| CustomNetworks.CustomNetworkStorage.constructor | apps/mobile-wallet/src/utils/customNetwork.ts:4-5 | the `custom-networks` key holds whatever was saved |
| CustomNetworks.CustomNetworkStorage.GetCustomNetworks | apps/mobile-wallet/src/utils/customNetwork.ts:14-17 | the stored list, or `[]` |
| CustomNetworks.CustomNetworkStorage.AddCustomNetwork | apps/mobile-wallet/src/utils/customNetwork.ts:23-40 | succeeds iff `Add` does, storing the appended list; a refusal writes nothing |
| CustomNetworks.CustomNetworkStorage.UpdateCustomNetwork | apps/mobile-wallet/src/utils/customNetwork.ts:47-63 | succeeds iff `Update` does, storing its list; a refusal writes nothing |
| CustomNetworks.CustomNetworkStorage.DeleteCustomNetwork | apps/mobile-wallet/src/utils/customNetwork.ts:69-74 | always writes the filtered list |
| RpcUrls.SetUrl | apps/mobile-wallet/src/utils/networkRpcUtils.ts:42-45 | other networks are untouched; a blank URL leaves the map as it was; any other is stored under the network, non-empty with no white space at its ends |
| RpcUrls.StoredUrlIsTrim | apps/mobile-wallet/src/utils/networkRpcUtils.ts:44 | the stored URL is the trimmed input, and trimming it again changes nothing |
| RpcUrls.BlankUrlKeepsEntry | apps/mobile-wallet/src/utils/networkRpcUtils.ts:42-48 | a blank URL does not remove a saved URL |
| RpcUrls.SetUrlPreservesTrimmed | apps/mobile-wallet/src/utils/networkRpcUtils.ts:42-45 | every stored URL stays non-empty and trimmed |
| RpcUrls.SetUrlIdempotent | apps/mobile-wallet/src/utils/networkRpcUtils.ts:42-45 | repeating the same call changes nothing more |
| RpcUrls.PaddedUrlIsTrimmed | apps/mobile-wallet/src/utils/networkRpcUtils.ts:42-44 | a trimmed URL with white space around it is stored without that white space |
| RpcUrls.RpcUrlStorage.constructor | apps/mobile-wallet/src/utils/networkRpcUtils.ts:4-5 | the `custom-rpc-urls` key holds whatever was saved |
| RpcUrls.RpcUrlStorage.GetCustomRpcUrls | apps/mobile-wallet/src/utils/networkRpcUtils.ts:16-26 | the stored map, or `{}` |
| RpcUrls.RpcUrlStorage.SetCustomRpcUrl | apps/mobile-wallet/src/utils/networkRpcUtils.ts:35-49 | always writes `SetUrl` of the current map, keeping the trimmed-URL invariant |
| JsStrings.TrimIsTrimmed | apps/mobile-wallet/src/utils/networkRpcUtils.ts:42 | `trim` leaves no white space at either end |
| JsStrings.TrimEmptyIffBlank | apps/mobile-wallet/src/utils/networkRpcUtils.ts:42 | `url.trim() === ''` iff the URL is all white space |
| JsStrings.TrimIdempotent | apps/mobile-wallet/src/utils/networkRpcUtils.ts:44 | trimming twice is trimming once |
| JsStrings.TrimOfPadded | apps/mobile-wallet/src/utils/networkRpcUtils.ts:44 | `trim` removes exactly the surrounding white space |
| JsStrings.TrimStart | apps/mobile-wallet/src/utils/networkRpcUtils.ts:42 | the result is a suffix of the input, everything before it is white space, and it does not start with white space |
| JsStrings.TrimEnd | apps/mobile-wallet/src/utils/networkRpcUtils.ts:42 | the result is a prefix of the input, everything after it is white space, and it does not end with white space |
| JsStrings.ToLower | apps/mobile-wallet/src/utils/tokenUtils.ts:57 | same length, no ASCII upper-case letter left, every other character kept |
| JsStrings.ToLowerIdempotent | apps/mobile-wallet/src/utils/tokenUtils.ts:57 | lowering twice is lowering once |
| JsStrings.NatToDecimal | apps/mobile-wallet/src/stores/network.ts:96 | `String(n)` of a natural number is all decimal digits, with no leading zero |
| JsStrings.DigitPrefix | apps/mobile-wallet/src/utils/customNetwork.ts:57 | `parseInt` reads only digits of its base |
| JsStrings.ParseIntOfUnsigned | apps/mobile-wallet/src/utils/customNetwork.ts:57 | with no white space or sign in front, `parseInt` is the unsigned reading |
| JsStrings.ParseIntOfNegative | apps/mobile-wallet/src/utils/customNetwork.ts:57 | a leading `-` negates the unsigned reading that follows |
| JsStrings.ParseUnsignedDecimal | apps/mobile-wallet/src/utils/customNetwork.ts:57 | without a `0x`/`0X` prefix, the digits are read in base 10, and no digit at all is NaN |
| JsStrings.ParseIntOfNumberToString | apps/mobile-wallet/src/utils/customNetwork.ts:57 | `parseInt(String(n))` is `n` for every integer |
| JsStrings.ParseIntStopsAtNonDigit | apps/mobile-wallet/src/utils/customNetwork.ts:57 | a decimal numeral followed by a character that is neither a digit nor `x`/`X` parses to its value: `parseInt('57abc')` is 57 |
| JsStrings.ParseIntReadsHex | apps/mobile-wallet/src/utils/customNetwork.ts:57 | after `0x`, a run of hexadecimal digits is read in base 16 |
| JsStrings.ParseIntOfHexSyscoin | apps/mobile-wallet/src/utils/customNetwork.ts:57 | `parseInt('0x39')` is 57, Syscoin's chain ID |
| JsValues.NumericKeyParsesBack | apps/mobile-wallet/src/stores/network.ts:96 | a numeric `key` is stored under `String(key)`, which `parseInt` reads back as the same number |
| JsValues.Spread | apps/mobile-wallet/src/stores/network.ts:82 | `{ ...a, ...b }` has the properties of both; `b`'s values win, and `a`'s others are kept |
| JsValues.Put | apps/mobile-wallet/src/stores/network.ts:96 | `r[k] = v` sets the entry; a known key keeps its place in key order, a new one goes last |
| JsValues.Delete | apps/mobile-wallet/src/stores/network.ts:106 | `delete r[k]` removes just that entry, and the key order loses only `k`; an absent key changes nothing |
| JsValues.WithoutDistributes | apps/mobile-wallet/src/stores/network.ts:106 | taking a key out of a concatenated key order takes it out of each part, so the others keep their relative order |
| JsValues.WithoutAt | apps/mobile-wallet/src/stores/network.ts:106 | in a key order without duplicates, removing the key at position `i` leaves exactly the keys before and after it, in order |
| JsValues.DeleteOrder | apps/mobile-wallet/src/stores/network.ts:106 | deleting the key at position `i` leaves exactly the keys before it and after it, in order, which is what a later `Object.values` lists |
| JsValues.DeleteUndoesPut | apps/mobile-wallet/src/stores/network.ts:96-106 | deleting a key just added restores the object, key order included |
| JsValues.Values | apps/mobile-wallet/src/stores/network.ts:67 | `Object.values` lists one value per key, in key order |
| JsValues.ValuesOfPut | apps/mobile-wallet/src/stores/network.ts:65-97 | a value stored under a new key is listed last; one stored under a known key takes that key's place |
| JsValues.Without | apps/mobile-wallet/src/utils/watchBalance.ts:51 | `provider.off` removes exactly that listener, keeps the others, and an absent one changes nothing |
| ImportedTokens.AddToken | apps/mobile-wallet/src/utils/tokenUtils.ts:54-58 | a known address (up to case) leaves the list as it was; a new one is appended at the end; either way the address is then present |
| ImportedTokens.AddPreservesUnique | apps/mobile-wallet/src/utils/tokenUtils.ts:57-58 | adding keeps addresses unique up to case |
| ImportedTokens.AddTwiceIsOnce | apps/mobile-wallet/src/utils/tokenUtils.ts:57-58 | adding the same token twice is adding it once |
| ImportedTokens.AddAllUnique | apps/mobile-wallet/src/utils/tokenUtils.ts:50-61 | after any sequence of adds, addresses are unique up to case |
| ImportedTokens.SameAddressEquivalence | apps/mobile-wallet/src/utils/tokenUtils.ts:57 | comparing lower-cased addresses is reflexive, symmetric and transitive, and an address equals its lower-case spelling |
| ImportedTokens.CaseInsensitive | apps/mobile-wallet/src/utils/tokenUtils.ts:57 | for any two tokens whose addresses agree up to case, adding the second after the first adds nothing |
| ImportedTokens.RemoveToken | apps/mobile-wallet/src/utils/tokenUtils.ts:73 | exactly the tokens with another address (up to case) remain, and none with that address |
| ImportedTokens.RemoveDistributes | apps/mobile-wallet/src/utils/tokenUtils.ts:73 | removal keeps the remaining tokens in order |
| ImportedTokens.RemoveAbsent | apps/mobile-wallet/src/utils/tokenUtils.ts:73 | removing an address that is not there changes nothing |
| ImportedTokens.RemoveUndoesAdd | apps/mobile-wallet/src/utils/tokenUtils.ts:50-75 | removing a token just added restores the list |
| ImportedTokens.TokenStorage.constructor | apps/mobile-wallet/src/utils/tokenUtils.ts:20-21 | the `evm-imported-tokens` key holds whatever was saved |
| ImportedTokens.TokenStorage.GetImportedTokens | apps/mobile-wallet/src/utils/tokenUtils.ts:37-42 | the network's list, or `[]` |
| ImportedTokens.TokenStorage.AddImportedToken | apps/mobile-wallet/src/utils/tokenUtils.ts:50-61 | a known address writes nothing; a new one is appended to this network's bucket only |
| ImportedTokens.TokenStorage.RemoveImportedToken | apps/mobile-wallet/src/utils/tokenUtils.ts:69-75 | always writes, with this network's bucket filtered (created empty if missing) and the others kept |
| TxHistory.FindTx | apps/mobile-wallet/src/utils/txHistory.ts:88 | the first index with the hash, or none exactly when no record has it |
| TxHistory.WithStatus | apps/mobile-wallet/src/utils/txHistory.ts:87-90 | only the first record with the hash changes, and only its status; an absent hash changes nothing |
| TxHistory.WithStatusKeepsHashes | apps/mobile-wallet/src/utils/txHistory.ts:88-89 | an update changes no hash, so the same record is found afterwards |
| TxHistory.WithStatusIdempotent | apps/mobile-wallet/src/utils/txHistory.ts:87-90 | repeating an update changes nothing more |
| TxHistory.StatusMayGoBack | apps/mobile-wallet/src/utils/txHistory.ts:89 | a confirmed record can be set to any status afterwards |
| TxHistory.AddAllIsReversed | apps/mobile-wallet/src/utils/txHistory.ts:76-78 | records added one by one come out newest first, ahead of the old ones |
| TxHistory.NoDedup | apps/mobile-wallet/src/utils/txHistory.ts:76-78 | adding a record twice puts it in the list twice, at the front (as two independent values) |
| TxHistory.WrittenBackThen | apps/mobile-wallet/src/utils/txHistory.ts:55-60 | two runs of updates, each written back by the watcher, amount to one run written back |
| TxHistory.WrittenBackBuckets | apps/mobile-wallet/src/utils/txHistory.ts:55-60 | after a write-back, every other network's bucket is unchanged, and a changed list is in its own network's bucket |
| TxHistory.History.constructor | apps/mobile-wallet/src/utils/txHistory.ts:23-35 | empty list, no network, storage not created |
| TxHistory.History.Ready | apps/mobile-wallet/src/utils/txHistory.ts:25-30 | storage is created exactly once, however often it is called |
| TxHistory.History.Persist | apps/mobile-wallet/src/utils/txHistory.ts:55-60 | the list is written to its network's bucket (`"undefined"` before loading), every other bucket kept |
| TxHistory.History.InitTxHistory | apps/mobile-wallet/src/utils/txHistory.ts:43-49 | the list becomes the selected network's bucket or `[]`, written back under that network |
| TxHistory.History.AddTx | apps/mobile-wallet/src/utils/txHistory.ts:76-78 | the record goes to the front and the list is persisted |
| TxHistory.History.UpdateStatus | apps/mobile-wallet/src/utils/txHistory.ts:87-90 | the list becomes `WithStatus`; it is persisted only when that changed it |
| TxWatch.ReceiptOutcome | apps/mobile-wallet/src/utils/watchTx.ts:37-39 | receipt status 1 confirms, any other receipt fails, no receipt or an error records nothing; never pending |
| TxWatch.WaitStatus | apps/mobile-wallet/src/utils/watchTx.ts:28-30 | a resolved wait confirms, any rejection fails |
| TxWatch.ChecksChangeOnlyStatus | apps/mobile-wallet/src/utils/watchTx.ts:35-46 | receipt checks keep every record, in order, changing statuses only |
| TxWatch.PendingRecords | apps/mobile-wallet/src/utils/watchTx.ts:16 | exactly the pending records are kept |
| TxWatch.PendingDistributes | apps/mobile-wallet/src/utils/watchTx.ts:16 | pending records keep the list order |
| TxWatch.NothingPending | apps/mobile-wallet/src/utils/watchTx.ts:16 | a list with no pending record resumes nothing |
| TxWatch.PendingHashes | apps/mobile-wallet/src/utils/watchTx.ts:16-17 | the hashes of the pending records, in list order |
| TxWatch.PendingHashesExact | apps/mobile-wallet/src/utils/watchTx.ts:16-17 | every pending record's hash is resumed, and every resumed hash belongs to a pending record |
| TxWatch.TxWatcher.constructor | apps/mobile-wallet/src/utils/watchTx.ts:6 | no provider, no listeners, no waits, over the given history |
| TxWatch.TxWatcher.CheckReceipt | apps/mobile-wallet/src/utils/watchTx.ts:35-46 | the receipt's status is recorded, if any, and a changed list is written to its network's bucket over the stored object; the network, listeners and waits stay as they were |
| TxWatch.TxWatcher.TrackTx | apps/mobile-wallet/src/utils/watchTx.ts:25-55 | with no provider nothing happens and nothing is written; otherwise the wait starts, one receipt check is applied and written back to the network's bucket, and a foreground listener is added |
| TxWatch.TxWatcher.SettleWait | apps/mobile-wallet/src/utils/watchTx.ts:28-30 | the settled wait sets its hash to confirmed or failed, and a changed list is written back to the network's bucket |
| TxWatch.TxWatcher.OnVisibilityChange | apps/mobile-wallet/src/utils/watchTx.ts:49-51 | a hidden state changes nothing; a visible one checks that listener's receipt, writing a changed list back to the network's bucket |
| TxWatch.TxWatcher.ResumeTxWatchers | apps/mobile-wallet/src/utils/watchTx.ts:14-18 | the provider is bound and exactly the pending hashes are tracked, in list order; the resulting list, when changed, is in the network's bucket with every other bucket kept |
| BalanceWatch.WatchOrder | apps/mobile-wallet/src/utils/watchBalance.ts:18-54 | the held watch is stopped first; the one refresh ends before the block listener is added last; a failed fetch reports nothing |
| BalanceWatch.RefreshEffects | apps/mobile-wallet/src/utils/watchBalance.ts:34-42 | a fetched balance is reported once; a failed fetch reports nothing |
| BalanceWatch.BalanceWatcher.constructor | apps/mobile-wallet/src/utils/watchBalance.ts:6 | the slot starts empty |
| BalanceWatch.BalanceWatcher.Stop | apps/mobile-wallet/src/utils/watchBalance.ts:51 | only that watch's listener is removed; the slot is not cleared |
| BalanceWatch.BalanceWatcher.Refresh | apps/mobile-wallet/src/utils/watchBalance.ts:34-42 | a fetched balance is reported; a failure reports nothing |
| BalanceWatch.BalanceWatcher.WatchBalance | apps/mobile-wallet/src/utils/watchBalance.ts:18-54 | the slot ends holding the returned stop function; the listeners lose the held watch and gain the new one, and the effects are `WatchEffects` |
| BalanceWatch.BalanceWatcher.OnBlock | apps/mobile-wallet/src/utils/watchBalance.ts:48 | a block refreshes a watch only while its listener is registered |
| TokenBalanceWatch.ResultsKeys | apps/mobile-wallet/src/utils/watchTokenBalance.ts:38-53 | the reported keys are exactly the addresses whose fetch succeeded |
| TokenBalanceWatch.ResultsValues | apps/mobile-wallet/src/utils/watchTokenBalance.ts:39-47 | with distinct addresses, each successful token maps to its own balance |
| TokenBalanceWatch.AllFailedIsEmpty | apps/mobile-wallet/src/utils/watchTokenBalance.ts:38-53 | when every fetch fails, the reported map is empty |
| TokenBalanceWatch.CollectBalances | apps/mobile-wallet/src/utils/watchTokenBalance.ts:39-51 | the loop builds `Results`, and every key is a successful token's address |
| TokenBalanceWatch.WatchOrder | apps/mobile-wallet/src/utils/watchTokenBalance.ts:21-65 | the held watch is stopped first; the first report, always made, comes before the block listener is added last |
| TokenBalanceWatch.TokenBalanceWatcher.constructor | apps/mobile-wallet/src/utils/watchTokenBalance.ts:8 | the slot starts empty |
| TokenBalanceWatch.TokenBalanceWatcher.Stop | apps/mobile-wallet/src/utils/watchTokenBalance.ts:62 | only that watch's listener is removed; the slot is not cleared |
| TokenBalanceWatch.TokenBalanceWatcher.Refresh | apps/mobile-wallet/src/utils/watchTokenBalance.ts:38-53 | the collected map is always reported, even when empty |
| TokenBalanceWatch.TokenBalanceWatcher.WatchTokenBalances | apps/mobile-wallet/src/utils/watchTokenBalance.ts:21-65 | the slot ends holding the returned stop function; polling is set to `minDelay` (2000 by default); the effects are `WatchEffects` |
| TokenBalanceWatch.TokenBalanceWatcher.OnBlock | apps/mobile-wallet/src/utils/watchTokenBalance.ts:59 | a block refreshes a watch only while its listener is registered |

## Left out

- Asynchrony and races are not modelled. Every `await` completes before the next statement. This covers the overlapping watch calls, whose slot is set only after the first refresh, and the completion order of `Promise.all`. Watcher effects happen at once, in program order. Storage writes are immediate, whole-document replacements.
- Provider calls are not modelled: `buildProvider`, `getProvider`, `getBalance`, `getTransactionReceipt`, `waitForTransaction` and `fetchTokenBalance`. Their results are method parameters, and for the transaction watcher the provider is identified by its URL. The two balance watchers model one implicit provider, with one listener list and one `pollingInterval`, although the code asks `getProvider()` afresh on every watch.
- Logging and the `JSON.stringify` check before the newer store's write are not modelled.
- `networkUtils.ts` is not part of this model. Where the code asks it for the selected network, the network is a parameter.
- `NETWORK_LIST` is imported but not defined in the files modelled here. It is taken to be the values of `NETWORKS` in declaration order.
- JavaScript numbers are integers here. Floating point, `NaN` as a chain ID, and `parseInt` beyond exact integer precision are left out.
- JsValues.Put: JavaScript lists integer-like keys before the other keys, whatever the insertion order. The model keeps plain insertion order for every key.
- JsStrings.ToLower: only ASCII letters are lowered. The full Unicode case mapping is left out because addresses are hexadecimal.
- NetworkStore.NetworkStore.Select: a write before `storage.create()` has finished is not modelled. The model drops every write made before the store is ready, although the code loses only the ones made before the database exists.
- NetworkStore.NetworkStore.Load: `Object.assign(state, raw)` also copies properties other than the three state fields. The model copies only those three, and only for an object document.
- LegacyNetworkStore.LegacyNetworkStore.Load: the same `Object.assign(state, raw)` copies any other own property of the document too, and an array document would copy its indices. The model copies only the three state fields that are present.
- TxHistory.History.UpdateStatus: Vue's change detection is approximated. The model writes when the found record's status actually changes.
- NetworkStore.NetworkStore.Persist: Vue's deep watcher fires only on a real change. The model writes `netconf` after every store operation once ready, also when nothing changed. That includes selecting the key already selected and an override patch that strips to nothing on a key without an override. The extra writes store the same document, so the next load cannot tell the difference.
- LegacyNetworkStore.LegacyNetworkStore.Persist: as for the newer store, the model writes after every operation and on every load, even when the state is unchanged; the document written is the same.
- TxHistory.NoDedup: records are values. In the code, `unshift(tx)` stores a reference, so the same object added twice is one object in two places, and `updateStatus` changes both. In the model they are two independent records, and only the first is updated; a later `resumeTxWatchers` would track the hash again.
- NetworkSelection.Resolve: names inherited from `Object.prototype`, such as `constructor` or `toString`, are modelled as absent keys. In the code, `predefined[k]` finds the inherited member, so selecting such a name resolves to an object instead of failing with "Unknown key".
- NetworkSelection.AddCustom: `'__proto__'` is modelled as an ordinary key. In the code, `state.custom['__proto__'] = n` replaces the prototype instead of adding an entry.
- TxHistory.History.constructor: `useTxHistory` only hands out the reactive list. That list is the `list` field.
- TokenBalanceWatch.CollectBalances: fetches are entered in token order. With two tokens of the same exact address, the code keeps whichever fetch finished last; the model keeps the later token's.
- Direct `removeEventListener` calls by other code, and the browser's dispatch to several listeners, are not modelled. One event reaching one listener is one call to `OnVisibilityChange`.
