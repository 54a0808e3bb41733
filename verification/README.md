# Verified model of OPSEC Market's state machines and codecs

This project models, in Dafny, the parts of OPSEC Market whose correctness is a claim about every
input or every run, and proves those claims. Each component has its own modules:

- **Bitcoin keys** (`Radix`, `Base58`, `ModArith`, `Secp256k1`, `CurveLaw`, `NonCube`,
  `Bip32`, `Derivation`, `Gf2`, `Descriptor`, `DescriptorCode`): Base58Check with its carry loops, compressed
  secp256k1 keys, the chord and tangent law and double-and-add, extended public keys and public derivation
  against BIP 32's private derivation, and the BIP 380 descriptor checksum.
- **Host reboot agent** (`RebootLedger`, `RebootController`, `RebootRuns`, `RebootHistory`): the
  durable ledger, the controller object, and all its runs.
- **Host policy** (`HostPolicy`, `HostRuns`): apply, confirm, rollback and boot load, each stopped at
  any step.
- **Accounts** (`Accounts`, `AccountTables`, `AccountRuns`): sign-in, sessions, password changes,
  suspension, bans and roles as interleaved transactions.
- **Limits** (`Limiter`, `LimiterRuns`, `Listener`): the bounded bucket tables and the
  connection-limiting listener.
- **Logo authorizations, backup expiry, money** (`Branding`, `Retention`, `Expiry`, `Money`).

Code that works by changing things step by step is modelled as methods over fields, maps, sequences and
loops, and each such method is proved equal to a value-level transition or to the property it promises.
The theorems about whole runs are then proved of those transitions. Runs are sequences of steps; a step
takes as parameters what the environment decides (clock readings, fresh tokens, how a save ends, whether
a check succeeded), so a statement about all runs covers every such choice.

`dafny verify dfyconfig.toml` checks everything.

## Assumptions

- SHA-256, HASH160 and HMAC-SHA512 are parameters with only their output length known. Where digests are
  compared (host policy, sign-in) they are taken not to collide. Random tokens are fresh.
- The curve proofs hold for every modulus p > 7 with p % 4 == 3. Facts that need p prime take one
  consequence of it, Fermat's little theorem, as the hypothesis `PrimeField`. That addition on the curve
  is associative is the hypothesis `MultiplesAssociate`, and that G has order N is part of `Generates`.
- The reboot agent's clock never goes back and reads after the zero time, and timers fire no earlier than
  asked. A process crash during a save is the failed save followed by the crash.
- Host policy files are written and removed atomically and durably, and outside changes to them happen
  only between commands while an apply is pending.
- Each account transaction is atomic under the row locks it takes; exact handles are unique.

## Findings

- `RebootHistory.RewriteReachable`: a finished record in the reboot ledger file can change. If saving
  "cancelled" reports an error after the rename, memory still holds the request as accepted, and a
  later shutdown overwrites the file with "abandoned". `FinishedRewrittenExactly` proves this is the only
  way, short of a power failure that brings an unsynced file back. In memory finished records never change.
- `Listener.ClearedTooLate`: a release that saw at most three quarters in use may clear the saturation
  flag after the slots have filled up again, so an accept waits with every slot taken while the listener
  reports that it is not full. `ClearedWhileBusyExactly` says exactly when: while an accept waits and use
  stays above three quarters, the flag can be cleared if and only if a release is already past its check.
- `HostRuns.DisabledByHandStaysOff`: rollback disables a firewall unit that was disabled before the apply
  but never enables one, so a unit that was enabled and was disabled by hand while the apply was pending
  stays disabled. `RollbackUndoesApply` proves that this is the only way a completed rollback does not
  restore the whole policy.

## Model

| member | source | states |
|---|---|---|
| `Base58.TableMatchesAlphabet` | internal/btc/base58.go:12-22 | The index table inverts the 58-character alphabet exactly, and is -1 for every other character |
| `Radix.MulAddIsArithmetic` | internal/btc/base58.go:46-55 | One carry pass over a number's minimal digits gives the minimal digits of n * m + c, for every base, multiplier and carry |
| `Base58.ScaleBytes` | internal/btc/base58.go:46-55 | The decoder's inner loops, with carry at most 57: the bytes become those of 58 times the number plus the digit |
| `Base58.CarryThrough` | internal/btc/base58.go:79-84 | The encoder's first inner loop, with carry at most 255: digits in place plus the carry left are 256 times the number plus the byte |
| `Base58.ScaleDigits` | internal/btc/base58.go:79-88 | Both inner loops of the encoder: the digits become those of 256 times the number plus the byte |
| `Base58.CountLeading` | internal/btc/base58.go:35-38 | Counts exactly the leading '1' characters or zero bytes |
| `Base58.TextValue` | internal/btc/base58.go:41-56 | The decoder's outer loop: the minimal bytes of the text's value, or a refusal exactly when a character is outside the alphabet |
| `Base58.ByteDigits` | internal/btc/base58.go:77-89 | The encoder's outer loop: the minimal base-58 digits of the bytes' value |
| `Base58.WriteDigits` | internal/btc/base58.go:90-97 | The text is the leading '1's and the digits most significant first |
| `Base58.CheckSum` | internal/btc/base58.go:57-66 | The bytes are accepted exactly when they are some payload followed by the first four bytes of its double hash, and that payload is returned; otherwise too short or mismatch |
| `Base58.Base58CheckDecode` | internal/btc/base58.go:31-67 | The whole decoder computes the value-level Decode: a length error exactly outside 1 to 128 characters, a character error exactly for a foreign character, and on success the bytes are the payload and its double-hash checksum |
| `Base58.Base58CheckEncode` | internal/btc/base58.go:70-98 | The whole encoder computes the value-level Encode |
| `Base58.RawRoundTrip` | internal/btc/base58.go:31-98 | Decoding the text of any bytes returns them, leading zeros included |
| `Base58.TextRoundTrip` | internal/btc/base58.go:31-98 | Encoding the bytes of any Base58 text returns that text, leading '1's included |
| `Base58.DecodeEncode` | internal/btc/base58.go:31-98 | Decoding an encoded payload returns it exactly when the text is at most 128 characters |
| `Base58.PayloadFits` | internal/btc/base58.go:24-25 | Every payload of at most 89 bytes encodes to at most 128 characters, so the round trip holds for it |
| `Base58.EncodeDecode` | internal/btc/base58.go:31-98 | Re-encoding the payload of any accepted string returns that exact string |
| `Secp256k1.DecompressAccepts` | internal/btc/secp256k1.go:19-69 | For every modulus, a key decompresses if and only if OnCurve accepts it and x^3 + 7 is not zero: the square check after the root never fails |
| `Secp256k1.DecompressSound` | internal/btc/secp256k1.go:54-76 | An accepted key gives a point with y^2 = x^3 + 7 and the named parity, and Compress returns the same 33 bytes (SEC 1, sections 2.3.3 and 2.3.4) |
| `Secp256k1.Mul` | internal/btc/secp256k1.go:109-118 | The bit loop computes double-and-add from the top bit down, and k-fold addition where the multiples add associatively; what an addition is, the chord and tangent laws say |
| `Secp256k1.DoubleAndAddIsTimes` | internal/btc/secp256k1.go:109-118 | Double-and-add is k-fold addition for every k, from associativity on the multiples and the identity alone |
| `Secp256k1.AddClosed` | internal/btc/secp256k1.go:79-104 | The sum of two curve points is a curve point or infinity (p prime); which one, the chord and tangent laws say |
| `Secp256k1.MulClosed` | internal/btc/secp256k1.go:109-118 | Every multiple of a curve point is a curve point or infinity (p prime) |
| `Secp256k1.CompressedOnCurve` | internal/btc/secp256k1.go:19-76 | The compressed form of any finite curve point passes OnCurve (p prime) |
| `CurveLaw.ChordLaw` | internal/btc/secp256k1.go:79-104 | For points with different x, r is their sum if and only if r.x + a.x + b.x is the squared slope of the chord and the reflected r lies on it, as congruences without division (SEC 1, section 2.2.1; p prime) |
| `CurveLaw.TangentLaw` | internal/btc/secp256k1.go:79-104 | The same equivalence for doubling, with the tangent's slope 3x^2 / 2y (p prime) |
| `CurveLaw.InfinityExactly` | internal/btc/secp256k1.go:86-90 | A sum of curve points is infinity if and only if one is the other's negation (p prime) |
| `CurveLaw.AddCommutes` | internal/btc/secp256k1.go:79-104 | Addition is commutative on the curve (p prime) |
| `CurveLaw.CompressRoundTrip` | internal/btc/secp256k1.go:54-76 | Decompressing the compressed form of a curve point with y not zero returns that point (p prime) |
| `CurveLaw.DoubledGenerator` | internal/btc/secp256k1.go:40-104 | G + G is the published point 2G of secp256k1 (P prime) |
| `Secp256k1.GeneratorOnCurve` | internal/btc/secp256k1.go:40-50 | The generator's coordinates satisfy the curve equation |
| `NonCube.SevenIsNoCube` | internal/btc/secp256k1.go:11-14 | 7 to the third of P - 1 is not 1 modulo the real P |
| `NonCube.RhsNeverZero` | internal/btc/secp256k1.go:19-34 | x^3 + 7 is never zero in the real field (P prime) |
| `NonCube.DecompressesExactlyOnCurve` | internal/btc/secp256k1.go:19-69 | Decompress yields a point for exactly the keys OnCurve accepts, as its comment promises (P prime) |
| `Bip32.ParseSerialize` | internal/btc/bip32.go:53-85 | Parsing a serialized key returns it exactly when it is well formed and its version is accepted, and otherwise names the version, the prefix, the point or the root, in that order |
| `Bip32.SerializeParse` | internal/btc/bip32.go:53-85 | Any accepted string is the serialization of its key under an accepted version |
| `Bip32.OneVersion` | internal/btc/bip32.go:78-85 | ... and under no other version |
| `Bip32.RootedParses` | internal/btc/bip32.go:90-92 | A rooted key parses as a root that keeps only the chain code and public key |
| `Bip32.TryChild` | internal/btc/bip32.go:129-141 | BIP 32's child at one index: one deeper, the parent's fingerprint, the index, the HMAC's right half as chain code and the point of its left half times G plus the parent; none exactly when the left half is at least n or that point is infinity |
| `Bip32.FirstChild` | internal/btc/bip32.go:128-143 | The loop returns the child at the least index that has one, or reports none exactly when none below 2^31 exists |
| `Bip32.CkdPubWith` | internal/btc/bip32.go:115-144 | Hardened index, depth and bad-point errors in order, then BIP 32's child at the least valid index at or after i below 2^31, with every skipped index invalid for BIP 32's reasons, or no index exactly when none exists |
| `Bip32.LeastIsChild` | internal/btc/bip32.go:128-143 | The least child is BIP 32's child at its index, and every index before it is invalid for BIP 32's reasons |
| `Bip32.ChildIsWellFormed` | internal/btc/bip32.go:115-144 | Every derived key is on the curve, and serializes and parses back to itself (p prime) |
| `Bip32.DerivedKeysParse` | internal/btc/bip32.go:53-144 | On the real curve, every key reached from a well-formed one by any chain of derivations is well formed: its point decompresses and it serializes and parses back to itself, with only P prime assumed |
| `Derivation.ChildFollows` | internal/btc/bip32.go:129-141 | Public derivation at one index is private derivation seen from outside: it has a child exactly when BIP 32's CKDpriv has, with that child's public key and chain code (p prime, G of order n, multiples associative) |
| `Derivation.CkdPubFollowsCkdPriv` | internal/btc/bip32.go:115-144 | CKDPub on the public key of a secret answers with the public key of the secret's private child at the least valid index, and with no index exactly when no private child exists |
| `Derivation.ChainFollows` | internal/btc/bip32.go:115-144 | The same along any chain of derivations |
| `Derivation.RealIsUsable` | internal/btc/secp256k1.go:11-50 | On secp256k1 everything these ask of the field follows from P being prime |
| `Descriptor.FeedCharacter` | internal/btc/descriptor.go:35-40 | Whatever follows, one turn of the loop leaves the register and class accumulator so that feeding the rest ends where feeding the character and the rest would have |
| `Descriptor.FeedCharacters` | internal/btc/descriptor.go:28-44 | The loop refuses exactly the texts outside the alphabet and otherwise runs the register over the expanded symbols |
| `Descriptor.Flush` | internal/btc/descriptor.go:45-47 | Eight zero symbols are fed |
| `Descriptor.DescriptorChecksum` | internal/btc/descriptor.go:27-54 | The whole function computes the checksum text of the expanded descriptor |
| `Descriptor.PendingIsExpand` | internal/btc/descriptor.go:29-44 | The running class accumulator feeds the same symbols as grouping the characters in threes beforehand |
| `Descriptor.ExpandLow` | internal/btc/descriptor.go:29-44 | Character i's low five bits are the symbol at i + i / 3, for every text |
| `Descriptor.ExpandHigh` | internal/btc/descriptor.go:29-44 | The symbol after each group of three, or a shorter last one, writes the characters' high parts in base 3 |
| `Descriptor.AddGenerators` | internal/btc/descriptor.go:17-21 | The loop adds exactly the selected generators, in any group where every element is its own inverse |
| `Descriptor.DescPolymod` | internal/btc/descriptor.go:14-23 | The whole polymod step, as it runs |
| `Descriptor.StepIsLinear` | internal/btc/descriptor.go:14-23 | The polymod step is linear over GF(2) in the state and the symbol together |
| `Descriptor.PolymodIsWritten` | internal/btc/descriptor.go:12-23 | The generator loop equals the step with all five generators written out |
| `Gf2.RunLinear` | internal/btc/descriptor.go:14-23 | Running a linear register on the difference of two inputs gives the difference of the results |
| `DescriptorCode.Bounded` | internal/btc/descriptor.go:14-23 | The state stays within 40 bits |
| `DescriptorCode.Kernel` | internal/btc/descriptor.go:14-23 | Only the zero state steps to zero on a zero symbol, so no difference dies out |
| `DescriptorCode.ChecksumCompletes` | internal/btc/descriptor.go:27-54 | BIP 380, Checksum: the register ends at exactly 1 after the descriptor's symbols and eight more if and only if those eight are its checksum |
| `DescriptorCode.ChecksumTextCompletes` | internal/btc/descriptor.go:27-54 | The same for texts: of all eight-character texts over the checksum alphabet, read character by character, exactly the computed one completes the descriptor |
| `DescriptorCode.ChangesDetected` | internal/btc/descriptor.go:27-54 | Two different descriptors of one length that differ only within two neighbouring aligned groups of three characters never have the same checksum |
| `DescriptorCode.AlphabetsAreValid` | internal/btc/descriptor.go:7-10 | The real alphabets meet what the proofs ask: at most 96 input characters, 32 different output characters |
| `RebootLedger.CheckBootID` | internal/hostcontrol/store.go:113-127 | Accepts exactly the 36-character hexadecimal ids with dashes at 8, 13, 18 and 23 |
| `RebootLedger.LedgerStore.Save` | internal/hostcontrol/store.go:68-102 | After a successful save the next start can find only the new ledger; after a failed one only the new ledger or what it could find before, and the old content is never ruled out |
| `RebootLedger.LedgerStore.Load` | internal/hostcontrol/store.go:29-66 | An absent file is created empty when allowed; any other content is returned unchanged exactly when it validates: version 1, this deployment, at most 4096 records, each with its own id, valid boot id, known state, and RebootAt thirty seconds after acceptance |
| `RebootController.SettleRecords` | internal/hostcontrol/agent.go:118-129 | Every accepted or executing record becomes abandoned under this boot and boot-changed under another, every other record stays; changed exactly when one was active |
| `RebootController.NewController` | internal/hostcontrol/agent.go:111-135 | The settled ledger is saved if anything changed, and a failed save means no controller |
| `RebootController.Controller.ReadStatus` | internal/hostcontrol/agent.go:193-214 | Ready exactly when nothing is pending, the agent is not stopped or full, ten minutes passed since the last receipt and the host check is ready; the pending and last receipts and the reasons pending and unavailable exactly as the records say |
| `RebootController.Controller.Reserve` | internal/hostcontrol/agent.go:216-249 | Accepts only a well-formed request for a new id, at most 60 seconds old and 5 ahead, with nothing pending, the agent ready and room; then the receipt is durable, due 30 seconds later, and the one change. A known id is answered from the ledger; 400 exactly for form or age; otherwise no record changes |
| `RebootController.Controller.Arm` | internal/hostcontrol/agent.go:251-265 | A timer is asked for at most once, only for the pending id of a running agent, for at least the full grace and not before RebootAt |
| `RebootController.Controller.ChangeState` | internal/hostcontrol/agent.go:273-291 | On success memory and the durable file agree, the record has the new state and no other record changed; on failure memory's records are untouched and a controller whose save failed is broken |
| `RebootController.Controller.Perform` | internal/hostcontrol/agent.go:293-313 | A launch means the request was accepted and ready and is durably saved as executing; a host that is not ready cancels it durably; otherwise no record starts executing; and no second call for the id can launch |
| `RebootController.Controller.Close` | internal/hostcontrol/agent.go:323-336 | Afterwards no request can be armed or performed, a request still accepted is durably abandoned when the save succeeds, the file was written only for such a request, and one left accepted means the save failed |
| `RebootRuns.StepInv` | internal/hostcontrol/agent.go:111-336 | Every step of every process, with failing saves, crashes, power failures and restarts, keeps the agent's invariant |
| `RebootRuns.ExecutedOnce` | internal/hostcontrol/agent.go:251-321 | Over every run: each id is executed at most once, only by the process that accepted it, only while durably saved as executing, at or after RebootAt, and a full 30 seconds after its timer was armed |
| `RebootRuns.CooldownHolds` | internal/hostcontrol/agent.go:193-248 | Over every run and restart: each acceptance's readiness clock read is at least ten minutes after the acceptance time of every receipt acknowledged before it |
| `RebootRuns.LedgersLoad` | internal/hostcontrol/store.go:29-66 | Over every run: a record is active exactly when it is the pending one, and every content the next start may find passes load, with at most 4096 records and every acknowledged receipt in it |
| `RebootHistory.HistoryGrows` | internal/hostcontrol/agent.go:216-321 | Acceptances and armings are never overwritten and executions never withdrawn |
| `RebootHistory.RestartNeverResumes` | internal/hostcontrol/agent.go:111-135 | A request accepted by an earlier process is never armed or executed by a later one |
| `RebootHistory.RestartSettles` | internal/hostcontrol/agent.go:111-135 | A start over an existing ledger reports each request it finds active as abandoned under the same boot and boot-changed under another, keeps every finished one, and leaves the file showing what memory holds |
| `RebootHistory.FailuresRecorded` | internal/hostcontrol/agent.go:160-336 | A request is recorded as abandoned when its answer was not flushed or the agent shut down, cancelled when the host was not ready, failed when the command failed |
| `RebootHistory.MemoryKeeps` | internal/hostcontrol/agent.go:273-291 | While an agent runs no record leaves its memory and no finished record changes |
| `RebootHistory.FinishedRewrittenExactly` | internal/hostcontrol/agent.go:273-336 | A finished record in the file is rewritten by a step, short of a power failure, if and only if the step is a shutdown whose save reaches the file while a failed save left 'cancelled' there and memory still holds the request as accepted |
| `RebootHistory.FinishedOnRuns` | internal/hostcontrol/agent.go:273-336 | The same equivalence in every reachable state |
| `RebootHistory.RewriteReachable` | internal/hostcontrol/agent.go:273-336 | A concrete run that reaches that rewrite, so 'finished records never change' is false of the file |
| `HostPolicy.Machine.WriteFiles` | internal/hostbootstrap/platform_linux.go:424-432 | Writes the files in the given order until stopped |
| `HostPolicy.Machine.Change` | internal/hostbootstrap/platform_linux.go:388-456 | apply from the pending record on, stopped after any number of changes, performs exactly that prefix of its changes |
| `HostPolicy.Machine.Finish` | internal/hostbootstrap/platform_linux.go:433-456 | The unit is enabled, the table replaced and the record completed, in that order |
| `HostPolicy.Machine.Apply` | internal/hostbootstrap/platform_linux.go:339-459 | Refused while something is pending; otherwise the prefix of changes, then as much of the automatic rollback as runs |
| `HostPolicy.Machine.RestoreFiles` | internal/hostbootstrap/platform_linux.go:577-601 | The recorded files are restored in order, then the record removed |
| `HostPolicy.Machine.RollbackLocked` | internal/hostbootstrap/platform_linux.go:563-602 | Disable if it was disabled, the table, the files, then the record, stopped anywhere |
| `HostPolicy.Machine.Rollback` | internal/hostbootstrap/platform_linux.go:537-562 | Does nothing without a record, refuses an incomplete one, otherwise rolls back |
| `HostPolicy.Machine.Confirm` | internal/hostbootstrap/platform_linux.go:481-536 | Commits exactly when config, boot, deadline, session, inventory, rules digest, every file digest and the unit agree; a commit happened before the deadline, in the boot and session of the apply, and changed nothing but the record |
| `HostPolicy.Machine.LoadFirewall` | internal/hostbootstrap/platform_linux.go:614-641 | Refused while pending or when rules and inventory differ, changing nothing; otherwise the table is the inventory's rules, which are the stored ones |
| `HostRuns.RollbackRestores` | internal/hostbootstrap/platform_linux.go:563-602 | From any state at all, a rollback that completes restores the recorded files and table exactly, and leaves the unit enabled exactly when it was enabled both in the record and when the rollback began |
| `HostRuns.ApplyStopped` | internal/hostbootstrap/platform_linux.go:388-456 | Wherever apply stops after its first change, the record holds the policy it found |
| `HostRuns.RollbackStopped` | internal/hostbootstrap/platform_linux.go:563-602 | A rollback that stops early leaves the record |
| `HostRuns.CompletedApplyConfirms` | internal/hostbootstrap/platform_linux.go:388-536 | An apply that runs to its end leaves what confirm accepts until the deadline |
| `HostRuns.CompletedApplyWrites` | internal/hostbootstrap/platform_linux.go:414-456 | An apply that runs to its end has written every controlled file with the candidate's text, 0600 for rules and inventory and 0644 otherwise, enabled the unit and loaded the table |
| `HostRuns.ConfirmFinds` | internal/hostbootstrap/platform_linux.go:481-536 | A successful confirm finds every controlled file with the candidate's text, the candidate's table and the unit enabled |
| `HostRuns.EndsOnlyInTime` | internal/hostbootstrap/platform_linux.go:339-602 | Whatever happens while an apply is pending, it ends only by a rollback or by a confirm in a checked session, in the boot that applied, less than five minutes after the apply started |
| `HostRuns.ExecInv` | internal/hostbootstrap/platform_linux.go:339-641 | Every command, stopped anywhere, with reboots and outside changes in between, keeps the invariant |
| `HostRuns.AllOldOrAllConfirmed` | internal/hostbootstrap/platform_linux.go:339-536 | Over every run: whenever nothing is pending the controlled files are exactly the original ones or all hold the last confirmed candidate's texts |
| `HostRuns.RollbackUndoesApply` | internal/hostbootstrap/platform_linux.go:339-602 | However apply stops, and whatever interrupted rollbacks, failed confirms, reboots and outside changes to files, table and unit follow, one rollback that completes restores files and table to before the apply, and the unit too if and only if it was not enabled before or still is when the rollback begins |
| `HostRuns.RollbackRestoresAll` | internal/hostbootstrap/platform_linux.go:339-602 | While nobody disables the unit by hand, the rollback restores files, table and unit exactly, over every such run |
| `HostRuns.DisabledByHandStaysOff` | internal/hostbootstrap/platform_linux.go:563-602 | From every state with the unit enabled: apply, disable by hand, roll back, and the unit is left disabled |
| `HostRuns.LoadAfterReboot` | internal/hostbootstrap/platform_linux.go:614-641 | After a reboot the confirmed table is loaded again, and a pending one never is |
| `AccountTables.Tables.StartSession` | internal/market/actions_auth.go:1347-1391 | Succeeds if and only if the account exists, is not refused, suspended or closed, its hash has the given digest and, for a password alone, no factor is enrolled; then there is one new session, under the current hash when the digest is of the checked one, only the previous and expired sessions are gone, and nothing else changed |
| `AccountTables.Tables.Challenge` | internal/market/actions_auth.go:1180-1220 | On success exactly the pending sign-in is used up and the one new session is its user's under its checked hash; it succeeds whenever the row is there, verified, and its account may sign in under that digest; otherwise nothing changes |
| `AccountTables.Tables.ChangePassword` | internal/market/actions_account.go:127-182 | Succeeds if and only if the account has the role and may sign in, the codes held and the own session still exists; then the hash is the new one, the account's only session is the new token's, its pending sign-ins are gone, and nobody else's rows changed |
| `AccountTables.Tables.ResetAdminPassword` | internal/market/admin_password.go:17-67 | Succeeds if and only if the account is an administrator with credentials; then only its hash changed, and a session or pending sign-in survives if and only if it is someone else's |
| `AccountTables.Tables.EndSessions` | internal/market/actions_account.go:31-45 | A session or pending sign-in survives, unchanged, if and only if it is someone else's |
| `AccountTables.Tables.SuspendAccount` | internal/market/actions_admin.go:92-202 | Succeeds if and only if another, active administrator acts on an account that is neither an administrator nor banned and is in the other state; suspending ends exactly its sessions and pending sign-ins, restoring only its pending sign-ins, and no other account's row changes |
| `AccountTables.Tables.BanAccount` | internal/market/admin_ban.go:104-311 | Succeeds if and only if another, active administrator acts on an open account that is neither an administrator nor banned; then it is banned, suspended and outside the staff, its earlier suspension kept aside, its handle reserved, exactly its sessions and pending sign-ins ended and no other row changed |
| `AccountTables.Tables.LiftBan` | internal/market/admin_ban.go:172-231 | Succeeds if and only if another, active administrator acts on a banned open account; then the earlier suspension is back, the handle stays reserved exactly when another banned account has it up to case, and no other reservation or row changed |
| `AccountTables.Tables.ChangeRole` | internal/market/actions_admin.go:475-528 | Succeeds if and only if another, active administrator gives a non-administrator a role that is not administrator, buyer only if banned, and moderator only with a second factor; nothing but that role changes |
| `AccountTables.Tables.SetRole` | internal/market/admin_role.go:29-114 | Succeeds if and only if the account has credentials and another role, a banned one becomes a buyer, a new administrator is neither suspended nor closing, new staff has a second factor, and the last active administrator stays; a removed administrator is signed out and nothing else changes |
| `AccountTables.CountOtherAdmins` | internal/market/admin_role.go:79-88 | The count is positive exactly when another active administrator exists |
| `AccountTables.HandleExists` | internal/market/actions_auth.go:1005-1014 | Finds a row with the handle up to case exactly when there is one |
| `AccountTables.Tables.RefuseTaken` | internal/market/actions_auth.go:1005-1014 | Taken exactly when an account or a reservation has the handle up to case |
| `AccountTables.Tables.InstallFirstAdmin` | internal/market/actions_auth.go:974-1000 | Happens once, for a handle no account or reservation has up to case, and adds exactly one administrator without factors |
| `AccountRuns.StepInv` | internal/market/actions_auth.go:1347-1391 | Every transaction keeps the account invariant, in any interleaving with earlier password checks |
| `AccountRuns.SessionsFollowPasswords` | internal/market/actions_auth.go:1347-1391 | Over every interleaving: each live session was opened under, or carried over to, its account's current hash, and suspended or closed accounts have none |
| `AccountRuns.ChangesOnlyConfirmed` | internal/market/actions_account.go:127-182 | Over every interleaving: a password change commits only if the hash confirmed before its transaction is still current, although only the own session row is checked |
| `AccountRuns.OldPasswordRefused` | internal/market/actions_account.go:127-182 | Over every interleaving: a committed change sets the new hash, and no sign-in checked against the replaced one, in one step or two and even if checked before the change, succeeds until that hash is set again |
| `AccountRuns.SecondStepOpens` | internal/market/actions_auth.go:1046-1220 | A two-step sign-in whose pending row is left alone succeeds whenever the account may still sign in under the hash first checked |
| `AccountRuns.StaffOnlyGranted` | internal/market/actions_admin.go:475-528 | An account joins the staff only at first-run setup, or by a role change with a second factor enrolled, made by another active administrator or on the host |
| `AccountRuns.StaffStaysSound` | internal/market/admin_role.go:29-114 | Over every run: an installed market has an active administrator, no administrator is suspended or banned, every banned account is suspended and outside the staff |
| `AccountRuns.BannedHandlesStay` | internal/market/admin_ban.go:259-260 | Over every run: while an account is banned its handle is reserved and no new account can take it in any case, case variants included |
| `AccountRuns.UnbanRestoresSuspension` | internal/market/admin_ban.go:172-185 | Whatever runs between a ban and its lifting, exactly the suspension held before comes back |
| `AccountRuns.FromEmptyDatabase` | internal/market/actions_auth.go:974-1000 | Over every run from an empty database: sessions follow passwords, staff stay sound, and no step can commit a password change on an unconfirmed hash or open an account under a banned handle |
| `Limiter.Purge` | internal/market/app.go:459-463 | Exactly the entries whose window passed are dropped |
| `Limiter.FindVictim` | internal/market/app.go:467-475 | A minimum by count and expiry among the evictable entries, or none exactly when every entry is exhausted or protected |
| `Limiter.ProtectedKeys` | internal/market/app.go:469 | The second-factor and rescue-code budgets of members and administrators are the protected ones, for every key of those forms |
| `Limiter.AllowIn` | internal/market/app.go:458-487 | The whole new table and answer of one request |
| `Limiter.App.Allow` | internal/market/app.go:388-419 | The key's own table changes and the other does not |
| `Limiter.App.Refund` | internal/market/app.go:491-505 | The key's use goes down by one, never below zero, and no other entry of either table changes |
| `Limiter.App.Limited` | internal/market/app.go:553-558 | For a budget of at least one, a request now is refused if and only if Limited reports the key or its full table has no entry that may go |
| `Limiter.App.AllowWrite` | internal/market/app.go:423-434 | Writes are counted in their own table |
| `Limiter.App.AllowLookup` | internal/market/app.go:439-456 | A handle already admitted in the window is admitted and changes nothing; otherwise it is counted, and noted if admitted |
| `LimiterRuns.RunBounded` | internal/market/app.go:458-505 | Over every run a table never exceeds 4096 entries |
| `LimiterRuns.LostIsMinimum` | internal/market/app.go:466-479 | An unexpired entry is lost to another key only in a full table, and then it is a minimum by count and expiry |
| `LimiterRuns.KeptThroughRuns` | internal/market/app.go:458-505 | No run of operations on other keys changes an unexpired entry that is exhausted or protected |
| `LimiterRuns.WindowFixed` | internal/market/app.go:458-487 | A window lasts ten minutes from the request that opened it, and no later operation on any key moves its end |
| `LimiterRuns.ReopensOnTime` | internal/market/app.go:458-487 | Over every run: however often a spent or protected key is tried inside its window, the window ends when it was to end and the first request after it is admitted, unless the full table has no entry that may go |
| `LimiterRuns.NeverMoreThanBudget` | internal/market/app.go:458-505 | With a fixed budget n, admissions less refunds never exceed n in a bucket's lifetime, over every run |
| `LimiterRuns.LimitedRefuses` | internal/market/app.go:553-558 | A key reported as spent is refused by the next request in its window |
| `LimiterRuns.RefundUndoesAllow` | internal/market/app.go:458-505 | Refunding an admitted request returns the key's use to what it was in its window and changes no other entry |
| `LimiterRuns.LookupAdmits` | internal/market/app.go:439-456 | A window admits at most the budget of different handles, and an admitted one is remembered |
| `Listener.StepInv` | internal/market/admission.go:211-296 | Every step of every accept, close and report goroutine keeps the listener's invariant |
| `Listener.SlotsAccounted` | internal/market/admission.go:227-251 | Over every interleaving: occupied slots never exceed n and are exactly the open connections, the accepts holding one and the releases not yet done |
| `Listener.ReportsConverge` | internal/market/admission.go:256-279 | Over every interleaving: reported generations strictly increase, and when no report is outstanding the last value reported is the current flag |
| `Listener.CheckDecides` | internal/market/admission.go:246-251 | A release whose check sees three quarters or fewer in use goes on to clear the flag; one that sees more ends with the flag untouched |
| `Listener.ClearedTooLate` | internal/market/admission.go:246-251 | A concrete run after which the listener counts as not full while an accept waits with every slot taken |
| `Listener.ClearedWhileBusyExactly` | internal/market/admission.go:246-251 | From any state with the flag up, an accept waiting and use above three quarters: the flag can be cleared while that accept still waits and use never falls to three quarters if and only if some release is already past its check |
| `Money.Pad` | internal/market/app.go:1105-1108 | Zeros go in front until there are more digits than decimals |
| `Money.Amount` | internal/market/app.go:1104-1110 | The whole printer |
| `Money.ParseAmount` | internal/market/app.go:1074-1103 | The whole parser, with its refusals in order |
| `Money.ParsePrinted` | internal/market/app.go:1074-1110 | Parsing a printed amount returns it, for every positive 63-bit amount and every number of decimals |
| `Money.ParsedValue` | internal/market/app.go:1074-1103 | An accepted text means exactly the decimal it writes, scaled by ten to the decimals |
| `Money.AcceptedExactly` | internal/market/app.go:1074-1103 | A text is accepted if and only if it is digits, possibly a dot and at most the allowed further digits, and the decimal so written is a positive 63-bit amount |
| `Money.WrittenParses` | internal/market/app.go:1074-1103 | Every such decimal is read as exactly that amount, or refused for its decimals or its range |
| `Money.PrintIsCanonical` | internal/market/app.go:1074-1110 | Two accepted texts mean the same amount exactly when they print the same |
| `Money.CanonicalExactly` | internal/market/app.go:1074-1110 | An accepted text prints unchanged exactly when it has no needless leading zero and no empty or zero-ended fraction |
| `Retention.PairsNeverShare` | scripts/backup-retention.py:135-155 | Two different artifacts never share a file |
| `Retention.SidecarsStandApart` | scripts/backup-retention.py:119-121 | A sidecar is never an artifact's file |
| `Retention.ReadStatus` | scripts/backup-retention.py:291-294 | Expired exactly when its time has come and no active hold matches it, retained exactly when it has not and none does, overdue exactly when a matching hold's review is due, else held |
| `Retention.CheckArtifacts` | scripts/backup-retention.py:279-293 | Every artifact validates and copies agree on their clocks, found with one table by digest |
| `Retention.CollectFiles` | scripts/backup-retention.py:296 | The union of the artifacts' files |
| `Retention.Scan` | scripts/backup-retention.py:248-298 | Accepts exactly the trees and registers in which every artifact, sidecar and hold checks out |
| `Expiry.Handle` | scripts/backup-retention.py:306-318 | One artifact counted, and deleted with its sidecar when expired and unchanged |
| `Expiry.Process` | scripts/backup-retention.py:304-318 | The loop deletes exactly the expired artifacts seen so far and counts by status |
| `Expiry.Expire` | scripts/backup-retention.py:301-320 | Nothing is deleted unless everything validated; a completed deleting run leaves an artifact gone with all its files and sidecar if and only if 30 days (archives) or 180 days (audit exports) have passed since its creation and no unreleased hold names it, and otherwise whole and unchanged; the four counts are the artifacts so divided |
| `Expiry.CountsPartition` | scripts/backup-retention.py:304-306 | The four counts add up to all artifacts |
| `Expiry.StatusMeans` | scripts/backup-retention.py:279-294 | In a validated tree each artifact's status is decided by its creation time and the unreleased holds on its path alone |
| `Expiry.DeletedExactly` | scripts/backup-retention.py:301-320 | Which artifacts the whole plan deletes, and that the others keep every byte |
| `Expiry.TamperingRefused` | scripts/backup-retention.py:119-160 | One file of one artifact with other bytes than registered makes the whole tree invalid, so nothing is deleted |
| `Expiry.NothingUnmanaged` | scripts/backup-retention.py:248-298 | In a validated tree every dump, audit export and signature is a file of some artifact with metadata |
| `Expiry.HeldUntouched` | scripts/backup-retention.py:288-294 | No file or sidecar of an artifact that an active hold names is ever deleted |
| `Expiry.ArtifactPresent` | scripts/backup-retention.py:119-160 | A validated artifact is there with all its files |
| `Expiry.DeletesWhole` | scripts/backup-retention.py:315-317 | A deleted artifact loses all its files and every other path keeps its content |
| `Branding.Rows.AdmitTicket` | internal/market/branding.go:331-336 | A change means the looked-up ticket was live and not admitted; after it that authorization can never be admitted again, and no other ticket changed |
| `Branding.Rows.FinishTicket` | internal/market/branding.go:338-363 | The logo changes only to the body and only with the ticket; a change means the looked-up ticket was live and admitted, after it that authorization holds for nothing again, and no other ticket changed |
| `Branding.StepInv` | internal/market/branding.go:110-363 | Every step of authorize, reset, lookup, admit, finish and sweep keeps the tickets' invariant |
| `Branding.UsedOnce` | internal/market/branding.go:275-363 | Over every run: each authorization is admitted at most once and replaces the logo at most once, only after admission, by the administrator and session that were authorized while both are live, and within ten minutes |
| `Branding.Superseded` | internal/market/branding.go:110-149 | After a reset, no earlier authorization, and after a new one no earlier one of the same administrator, can change the logo |

## Left out

- HTTP routing, cookies, templates, notices and audit texts: presentation and I/O.
- Reboot agent: JSON encoding and its 4 MiB bound (an oversized save is one of the failing saves), peer user ids, storage readiness itself.
- Host policy: preflight checks, sshd, networkctl and Docker inspection, file permissions and symlink checks, the rollback unit and timer files (a rollback may run at any time instead), the retained executable, and the loss of a rename that was never synced.
- Host policy: a live table's digest is taken over its rules; the normalization of nft's JSON output is not modelled.
- Accounts: account closure and retention, TOTP and PGP verification, form receipts, wallet locks, and what role changes do to listings and applications; closed and closing flags are rows that these transactions only read.
- Accounts: an acting administrator's own second-factor requirement (the model lets more through), and session expiry times (any rows may expire at any time).
- Accounts: sign-in refusals for required PGP and for the public administrator route are one refusal flag.
- Accounts: registration's own checks beyond the taken handle.
- Limiter: the sign-in refusal log and the admission classes of `admission.go` other than the listener; a nil saturation callback.
- Listener: logThrottle, and that Accept is called by one goroutine at a time (the model allows any number).
- Money: TrimSpace over Unicode spaces beyond Latin-1, which only decides between two refusals; printing of negative amounts.
- Retention: reading JSON, timestamp texts and the hold register's free-text fields; an unlink that fails halfway; directories, links and file modes.
- Retention: a signature's name is its data file's name with the extension after the first dot exchanged, which for names of the audit pattern is what the script's text replacement does.
- Branding: scanning and normalizing the image, and sealing of the ticket.
- `IsBase58Char`, `Fingerprint`, `WithChecksum`, `cloneLedger` and `ingressKey`: one-line members that would add nothing.
