# Windmill Gate

Windmill Gate decides whether commands of an AI agent run on a production system. This project
models the parts of it that carry that decision, and proves what they promise. Bytes are
characters 0 to 255; a Go string is a Dafny `string` of them.

- **Redaction of output** (`Redaction`, `RedactingWriter`, `RedactionSafety`, `RedactorChain`). The
  writer that replaces a private ID in a stream, as a class over a destination that may fail at any
  byte, and stacks of such writers. The stream is compared with the whole-string replacement, and
  both with what the reader must not see.
- **Shell transport** (`ShellTransport`, `PosixShell`). The quoted argument lists sent to a remote
  shell, against a reference for word splitting and quote removal (IEEE Std 1003.1-2017, Shell and
  Utilities, sections 2.2.1 to 2.2.3, 2.3 and 2.6.7).
- **The shell tokenizer and the views** (`Utf8`, `ShellWords`, `ShellTokenizer`, `ShellSpans`,
  `ShellRefinement`, `ShellJoining`, `ShellAcceptance`, `ShellViews`, `ShellWrappers`,
  `Utf8Encoding`). The specification reads a command one byte at a time; the nested loops are proved
  against it, it is proved to stay in step with the POSIX reference, and which commands it accepts is
  stated by how each byte is quoted.
- **The policy and its similar rules** (`PolicyEngine`, `SimilarPattern`, `SimilarWords`,
  `SimilarRules`). Decisions over all views, rules of targets, and the patterns that an operator
  grants for a payload.
- **The SQL read recogniser** (`SqlWords`, `SqlTokens`, `SqlGrammar`, `SqlReading`, `SqlParser`,
  `SqlScanner`, `SqlTheorems`, `SqlPrinting`, `SqlSpelling`, `SqlClauses`, `SqlSafety`, `SqlText`).
  Scanner and parser as imperative code, a grammar of syntax trees with a writer and a depth, the
  proof that the parser accepts exactly what the writer writes, and what that means for the words of
  a query.
- **Submitting, approving and executing** (`Commands`, `Approvals`, `GateProtocol`,
  `GateInvariant`, `GateSafety`, `GateAuthority`, `GateRaces`, `GateExecution`). A state machine of
  any number of submissions, an operator, cancellations and failing calls; an inductive invariant;
  safety over all runs; and the method `execute` in its own form, on the command, the broker, the
  policy and the tables, proved to take a run of the machine, to log what it did, and to end in one
  of ten ways that fix its calls of the store and the row.
- **The record of output** (`AuditOutput`, `AuditWriting`). The bounded table of output and the
  writers that record and relay, with other streams and commands running in between.
- **The hosts file** (`Strings`, `HostsText`, `HostsFile`, `HostNames`, `HostAliases`) and **the
  frames of the protocol** (`Framing`).

## Where the code says less than its comments

The model follows the code.

- A redacting writer keeps "enough overlap" only for a secret without a border (a proper prefix that
  is also a suffix). `RedactingWriter.ChunkIndependentExactly` says so for all secrets: the border is
  the exact condition, and `RedactingWriter.BorderBreaks` gives the stream, in which the reader is
  shown the ID (`RedactionSafety.BorderShows`).
- Replacing an ID by the mask does not remove it where the bytes around the mask make it up again.
  `RedactionSafety.HidesExactly` and `RedactionSafety.NeverShownExactly` give the exact condition on
  the ID, and `RedactionSafety.Lets` the text.
- Truncation of output is not always recorded "exactly once": when a chunk fills the limit to the
  last byte, what is dropped later leaves no flag (`AuditOutput.FlaggedExactly`). The marker for the
  agent does not have this gap (`AuditWriting.Writer.SinkGets`).
- `Decide` may succeed while the waiting agent takes its cancellation, so an accepted decision need
  not be recorded. It is recorded if and only if `Wait` did not take the cancellation and the call
  that records it succeeded (`GateSafety.AcceptedIsStored`); `GateRaces.AcceptedAndDropped` is the
  run in which it is not, for any decision.
- A cancelled `Wait` removes whatever waits under its ID, not its own request. It removes another
  one if and only if another one waits under its ID, and never if no ID is used twice, which is how
  the gate calls it (`Approvals.Broker.GiveUp`); `Approvals.GiveUpTakesAnother` is a sequence of
  calls in which it does.
- Detaching a target does not revoke an approval that has been stored while its rule has not been
  added: the rule is in force afterwards. `GateAuthority.ApprovedBeforeDetach` gives the exact
  condition, and `GateRaces.ApprovedThenDetached` the run.
- Detaching a target does not stop a submission that has been judged and has not begun to run: it is
  executed by a rule that is no longer in force. `GateAuthority.GrantAtExecution` gives the exact
  condition, and `GateRaces.JudgedThenDetached` the run.
- A live alias can be without its line, and a line can stay without an alias. The first is so if and
  only if a removal of the alias, since it was added, rewrote the file and then failed in the store
  (`HostAliases.LiveOnOneLine`); the second if and only if an addition failed in the store and then
  could not rewrite the file (`HostAliases.FileIsUserAndAliases`). `HostAliases.AliasWithoutLine` and
  `HostAliases.LineWithoutAlias` are calls that lead there.

## Model

| member | source | states |
|---|---|---|
| Redaction.RedactSplits | internal/backend/windmill/windmill.go:406-411 | where no occurrence of the secret crosses a cut, redacting the two sides apart gives the redaction of the whole |
| RedactionSafety.RedactFirst | internal/backend/windmill/windmill.go:406-411 | the first occurrence of a secret gives way to [backend-id-redacted], what stands before it is kept, and what follows it is redacted in turn |
| RedactingWriter.FlushPoint | internal/backend/windmill/windmill.go:435-446 | whatever the buffer, at most len(secret)-1 bytes are kept back |
| RedactingWriter.FlushPointSafe | internal/backend/windmill/windmill.go:438-446 | with an unbordered secret no occurrence crosses the flush point, whatever bytes arrive later |
| RedactingWriter.StreamedWhole | internal/backend/windmill/windmill.go:428-462 | with an unbordered secret, any way of cutting a stream into writes followed by a close delivers the redaction of the whole stream |
| RedactingWriter.ChunkIndependentExactly | internal/backend/windmill/windmill.go:413-462 | the result is independent of the cuts for every stream if and only if the secret has no border |
| RedactingWriter.BorderBreaks | internal/backend/windmill/windmill.go:413-462 | for every secret with a border, a stream cut in two for which the writer and the whole-string redaction differ |
| RedactionSafety.BorderShows | internal/backend/windmill/windmill.go:413-462 | in that stream the reader is shown the secret itself |
| RedactionSafety.HidesExactly | internal/backend/windmill/windmill.go:406-411 | redaction leaves no occurrence of an unbordered secret in any text if and only if the secret cannot be laid over the mask so that they agree on the bytes they share |
| RedactionSafety.RedactManyHides | internal/backend/windmill/windmill.go:309-314 | redacting with several secrets leaves none of those that do not meet the mask, bordered or not |
| RedactionSafety.NeverShownExactly | internal/backend/windmill/windmill.go:413-462 | the writer shows a secret to its reader for no stream and no way of cutting it if and only if the secret has no border and does not meet the mask |
| RedactorChain.Boundary | internal/backend/windmill/windmill.go:438-446 | the loop around the boundary finds the flush point |
| RedactorChain.Writer.constructor | internal/backend/windmill/windmill.go:421-426 | a new writer, alone or on top of a stack, over a destination that may have bytes already or have failed |
| RedactorChain.Writer.Flush | internal/backend/windmill/windmill.go:438-452 | passes on exactly the redaction of the bytes up to the flush point, and keeps everything if that fails |
| RedactorChain.Writer.Write | internal/backend/windmill/windmill.go:428-453 | takes all bytes; on success at most len(secret)-1 are pending and the rest has gone on redacted; on failure the destination is broken and nothing is lost from the buffer |
| RedactorChain.Writer.Close | internal/backend/windmill/windmill.go:455-462 | nothing stays pending, and the invariant ties what was delivered to the redaction of all that was written |
| RedactorChain.RedactedStream | internal/backend/windmill/windmill.go:292-301 | builds the stack so that the outermost writer applies the first secret and the invariant of the whole stack holds; without secrets it gives the destination |
| RedactorChain.CloseRedactors | internal/backend/windmill/windmill.go:303-307 | closing from the outermost writer inwards leaves the destination, after what it had before, with exactly redactMany of the stream, or with a prefix of it if the destination failed |
| RedactorChain.StreamRedacted | internal/backend/windmill/windmill.go:283-314 | one command output from end to end: any chunks, any list of unbordered secrets, any destination, which may fail at any point or have failed before; none of the secrets that do not meet the mask reaches it |
| ShellTransport.RemoteCommandRoundTrip | internal/backend/windmill/windmill.go:391-404 | a POSIX shell recovers every argument list exactly from what remoteCommand prints |
| ShellTransport.RemoteCommandInjective | internal/backend/windmill/windmill.go:391-404 | different argument lists are printed differently |
| ShellTransport.SplitShellQuote | internal/backend/windmill/windmill.go:399-404 | one quoted value is read back as one word, also when empty or full of quotes |
| ShellTransport.LegacyRoundTrip | internal/backend/windmill/windmill.go:316-337 | splitting the legacy command gives ssh, its four options, -p with the decimal text that reads back as the port, root@ with the host, in brackets exactly if it has a colon, and the target command; splitting that gives sh, -lc and the payload |
| ShellTransport.ForwardRoundTrip | internal/backend/windmill/windmill.go:316-337 | the same for a forward: -o ExitOnForwardFailure=yes -N -L and the specification, unchanged, before the destination |
| ShellTransport.RemoteCommandTokenizes | internal/backend/windmill/windmill.go:391-404 | tokenizeShell accepts the printed command exactly when there are arguments and none has a character it refuses anywhere, and then recovers them |
| Utf8.CleanSplits | internal/policy/shell.go:27-34 | the screening for encoding, control and space characters can be done on the two sides of a printable ASCII byte |
| Utf8.CleanBytes | internal/policy/shell.go:41-52 | after the screening no ASCII control byte is left for the later tests |
| Utf8Encoding.RunesExactly | internal/policy/shell.go:27-29 | a text is decoded to some characters if and only if it is their encoding by section 3 of RFC 3629 |
| Utf8Encoding.CleanExactly | internal/policy/shell.go:27-34 | the screening lets a text through if and only if it encodes characters none of which is a control or white space other than U+0020, each range and character named |
| ShellTokenizer.TokenizeShell | internal/policy/shell.go:26-130 | the nested loops compute what the byte-by-byte reader does, whose acceptance, values and flags the rows below state, with the same reason for each refusal |
| ShellTokenizer.ReadWord | internal/policy/shell.go:44-124 | one word: its text, value, quote and mixed flags, or the reason of refusal |
| ShellTokenizer.ReadQuoted | internal/policy/shell.go:63-76 | one quoted segment, or the reason of refusal |
| ShellAcceptance.AcceptsExactly | internal/policy/shell.go:35-129 | a command is accepted if and only if it is clean text with something else than spaces, its quotes and escapes are complete, and no byte is refused where it stands: the bytes refused bare and in double quotes, the tilde at the start of a word, and the bytes that make a $ an expansion, each named |
| ShellAcceptance.BareWord | internal/policy/shell.go:103-107 | every text of bytes 0x21 to 0x7E other than the named ones is one word with that value |
| ShellAcceptance.QuotedWord | internal/policy/shell.go:57-77 | every clean text in quotes that take it as it is makes one word, whose value is the text |
| ShellRefinement.TokenizerRefinesPosix | internal/policy/shell.go:26-130 | whenever the tokenizer accepts, a POSIX shell reads the same word values |
| ShellRefinement.AgreesRun | internal/policy/shell.go:35-130 | the tokenizer and the reference splitter stay in step over any text |
| ShellSpans.WordsArePlaced | internal/policy/shell.go:44-124 | word spans are increasing and disjoint, with nothing but spaces outside them |
| ShellSpans.WordText | internal/policy/shell.go:114-123 | the flags tell exactly what the text of a word is: bare, one quoted segment, or mixed |
| ShellJoining.JoinAtSpace | internal/policy/shell.go:26-130 | after accepted text and a space, the whole is accepted exactly when the rest is, or is only spaces, and has the words of both |
| ShellWrappers.WrappedExactly | internal/policy/shell.go:175-178 | the two wrapper patterns capture a text exactly when it follows a name of letters, digits and _ . - that begins with a letter or digit, and a space, and has no newline |
| ShellWrappers.TextsExactly | internal/policy/shell.go:142-151 | the views are the command, what runagent -m runs in it, and what podman exec runs in that or in the command: which there are, if and only if |
| ShellWrappers.WrapperReadsInner | internal/policy/shell.go:142-151 | a wrapped command is accepted exactly when its inner text is, and has the three prefix words followed by the inner words, shifted |
| ShellWrappers.RedirectIsBeyond | internal/policy/network.go:94-109 | a redirection that is let through is never a command a shell would read by quoting alone |
| ShellWrappers.WordsExactly | internal/policy/shell.go:153-161 | a view has words, and which, if and only if it is accepted, or it is a command before < /dev/null 2>&1 whose words with these three the validator of the probe accepts, without a runagent wrapper in front |
| ShellWrappers.ReadableWords | internal/policy/shell.go:154-161 | the words of a readable view are those a POSIX shell reads, unless it is a let-through redirection |
| ShellWrappers.LeafTest | internal/policy/shell.go:166-171 | the test on the words of the innermost view finds a wrapper exactly if the words that a shell reads there, with or without the redirection that is let through, begin with runagent or with podman exec |
| ShellWrappers.ReadableExactly | internal/policy/shell.go:142-173 | a command is readable if and only if every view has words and a shell reads no words in the innermost one that begin with runagent or with podman exec |
| ShellViews.CommandViews | internal/policy/shell.go:142-173 | the loop yields the views of the command and whether all can be read and no wrapper is left |
| PolicyEngine.Engine.Evaluate | internal/policy/policy.go:100-141 | the decision is the declarative one for the rules in force; the rule named is the first that matches: of the deny rules for the first denied view, of the target rules, or of the allow rules for the first allowed view |
| PolicyEngine.JudgeExactly | internal/policy/policy.go:100-141 | DENY if and only if a deny rule matches the text of a view; ALLOW if and only if none does, the command is readable, and a rule of the target matches it or an allow rule, validated or not, a view |
| PolicyEngine.Engine.DenyingRule | internal/policy/policy.go:102-108 | the deny loop over views and rules |
| PolicyEngine.Engine.AllowingRule | internal/policy/policy.go:128-139 | a rule exactly if some view is allowed, and then the first for the first such view: a plain rule that matches it, or else a validated rule that matches it and whose validator accepts its words |
| PolicyEngine.Engine.AllowForTarget | internal/policy/policy.go:144-156 | adds a rule to the history of its target, or refuses an empty target or a pattern that does not compile |
| PolicyEngine.Engine.DetachTarget | internal/policy/policy.go:169-173 | forgets the rules of the target and of no other |
| PolicyEngine.SinceDetached | internal/policy/policy.go:144-173 | what was done before the last detach of a target has no effect on its rules |
| PolicyEngine.WideningOnlyAllows | internal/review/validation.go:125-133 | further allow rules, persistent, validated or of the target, move decisions only from ASK to ALLOW, for every command |
| PolicyEngine.LeftoverNeverAllowed | internal/policy/policy.go:113-141 | no policy allows a command in whose innermost text a shell reads words that begin with runagent or with podman exec, with or without the redirection that is let through |
| PolicyEngine.AllowedIsPlain | internal/policy/policy.go:110-141 | every view of an allowed command means to a POSIX shell just the words judged, or is a let-through probe |
| SimilarPattern.SimilarPattern | internal/approval/approval.go:142-159 | the loop writes a text that, read as a regular expression, matches just what is similar to the payload |
| SimilarPattern.AcceptedFields | internal/approval/approval.go:142-149 | the fields of a payload that the tokenizer accepts are its pieces between ASCII spaces, although other white space divides fields too |
| SimilarPattern.PatternRoundTrip | internal/approval/approval.go:142-159 | a reader of regular expressions with its own list of the 14 bytes that need a backslash, to which a bare dot is any character, reads the text of a pattern as its elements |
| SimilarPattern.SimilarExactly | internal/approval/approval.go:142-171 | the text of the pattern, read so, matches exactly the texts that differ from the payload in standalone numbers after the first word, or the payload alone |
| SimilarPattern.SimilarMatchesItself | internal/approval/approval.go:142-171 | and it matches its own payload |
| SimilarWords.AlikeTokenize | internal/approval/approval.go:142-159 | texts that differ in numbers only are accepted alike, with as many words |
| SimilarRules.PlainGeneralises | internal/approval/approval.go:142-171 | the pattern of fields of bytes that need no quoting, with single spaces, matches just what has the same first field and then the same fields but for decimal numbers in the places of decimal numbers |
| SimilarRules.TextsOfFields | internal/policy/shell.go:142-151 | the views of a command of simple fields are those of its field lists |
| SimilarRules.MatchIsRead | internal/approval/approval.go:142-159 | whatever the pattern matches is readable exactly when the payload is, and has as many words |
| SimilarRules.SimilarRuleEffect | internal/policy/policy.go:113-126 | adding the rule of a payload to a target allows what is similar to the payload and no deny rule stops if the views of the payload parse, and otherwise changes no decision |
| SimilarRules.SimilarRuleAllowsPayload | internal/policy/policy.go:113-126 | a readable payload that is not denied is allowed once its rule is added |
| SqlScanner.ScanSQL | internal/policy/mysql.go:119-219 | the scanning loops give the tokens of the query, or refuse it |
| SqlScanner.ScanToken | internal/policy/mysql.go:127-217 | one token and where it ends |
| SqlScanner.ScanLiteral | internal/policy/mysql.go:155-179 | a string literal with doubled quotes and no backslash |
| SqlPrinting.FirstBytes | internal/policy/mysql.go:121-217 | the byte a token begins with tells its kind, blanks are skipped, and no other byte begins a token |
| SqlPrinting.WellFormedExactly | internal/policy/mysql.go:127-217 | the texts of each kind of token, byte by byte; Reprinting scans each of them back |
| SqlSpelling.ReservedExactly | internal/policy/mysql.go:587-601 | a word is reserved if and only if it is one of the 49 texts in letters of either case |
| SqlParser.Parser.Scalar | internal/policy/mysql.go:490-539 | takes exactly the scalar the grammar reads, restores the depth on every path, and terminates |
| SqlParser.Parser.Call | internal/policy/mysql.go:503-526 | takes the call the grammar reads: adjacent bracket and known function only |
| SqlParser.Parser.BooleanTerm | internal/policy/mysql.go:411-449 | takes exactly the term the grammar reads, with the depth guard, and restores the depth |
| SqlParser.Parser.BooleanExpression | internal/policy/mysql.go:399-409 | a chain of terms |
| SqlParser.Parser.TableList | internal/policy/mysql.go:341-372 | the table list with its join words and ON clauses |
| SqlParser.Parser.SelectList | internal/policy/mysql.go:374-387 | the select list, where a star stands alone |
| SqlParser.Parser.LimitClause | internal/policy/mysql.go:472-488 | the limit with its offset or range |
| SqlParser.Parser.SelectStatement | internal/policy/mysql.go:286-323 | both dialects of SELECT |
| SqlParser.Parser.ShowStatement | internal/policy/mysql.go:244-270 | SHOW in its forms |
| SqlParser.Parser.DescribeStatement | internal/policy/mysql.go:272-280 | DESCRIBE and DESC |
| SqlParser.Parser.ReadAnyStatement | internal/policy/mysql.go:228-242 | the statement the grammar reads |
| SqlTheorems.ScalarSound | internal/policy/mysql.go:490-539 | whatever is read as a scalar is the writing of a scalar of the dialect within the depth bound |
| SqlTheorems.ScalarComplete | internal/policy/mysql.go:490-539 | every scalar of the dialect within the bound is read back from its writing, whatever may follow it |
| SqlTheorems.TermSound | internal/policy/mysql.go:411-449 | the same for boolean terms: what is read is a writing |
| SqlTheorems.TermComplete | internal/policy/mysql.go:411-449 | and every term is read back |
| SqlTheorems.ConditionComplete | internal/policy/mysql.go:399-409 | every chain of terms is read back |
| SqlTheorems.JoinsComplete | internal/policy/mysql.go:341-372 | every join list is read back |
| SqlTheorems.SelectComplete | internal/policy/mysql.go:286-323 | every SELECT of a dialect is read back |
| SqlTheorems.StatementsExactly | internal/policy/mysql.go:228-242 | a token list is accepted if and only if it is the writing of a statement whose nesting is at most 64 |
| SqlTheorems.LegacySelectsExactly | internal/policy/mysql.go:88-95 | the same for the older SELECT dialect |
| SqlTheorems.StatementsUnambiguous | internal/policy/mysql.go:228-280 | no token list is the writing of two statements |
| SqlTheorems.LegacyWithinExtended | internal/policy/mysql.go:79-95 | what the older dialect accepts, the extended one reads as the same statement |
| SqlPrinting.Reprinting | internal/policy/mysql.go:119-219 | printing the tokens and scanning them again gives the same kinds and values, and the same adjacent brackets |
| SqlSafety.AcceptedTidy | internal/policy/mysql.go:411-449 | in every accepted statement SELECT and the banned words stand nowhere but SELECT at the start, calls are adjacent and known, and brackets nest to 64 at most |
| SqlText.ValidateReadOnlySQL | internal/policy/mysql.go:79-86 | the validator, scanner and parser together, decides acceptance |
| SqlText.ValidateSelectSQL | internal/policy/mysql.go:88-95 | the validator of the older dialect |
| SqlText.ReadOnlyExactly | internal/policy/mysql.go:79-86 | a query text is accepted if and only if its tokens write a statement of the language |
| SqlText.AcceptedExactly | internal/policy/mysql.go:228-242 | a query is accepted if and only if its tokens are those of a SHOW or a DESCRIBE, word by word, or begin with SELECT and write a SELECT of the language |
| SqlSpelling.ShowExactly | internal/policy/mysql.go:244-270 | what may follow SHOW, word by word and if and only if |
| SqlSpelling.DescribeExactly | internal/policy/mysql.go:272-280 | what may follow DESCRIBE or DESC, word by word and if and only if |
| SqlSpelling.SelectAccepted | internal/policy/mysql.go:286-323 | a query is accepted whose tokens say SELECT, DISTINCT, FROM, WHERE, GROUP BY, HAVING, ORDER BY, LIMIT and OFFSET around parts that write the parts of a fitting tree, each clause optional |
| SqlClauses.CallsAccepted | internal/policy/mysql.go:503-526 | a SELECT of an adjacent call is accepted: COUNT of a star, COUNT, SUM, AVG, MIN or MAX of a condition, with DISTINCT or without, UPPER or LOWER of a scalar, REPLACE of three, that nest less than 64 deep |
| SqlClauses.NegationIsSaid | internal/policy/mysql.go:417-419 | NOT before a term |
| SqlClauses.TestsAreSaid | internal/policy/mysql.go:425-431 | LIKE, IS NULL and IS NOT NULL after a scalar |
| SqlClauses.MembershipIsSaid | internal/policy/mysql.go:432-447 | IN and NOT IN before a list |
| SqlClauses.ChainsAreSaid | internal/policy/mysql.go:399-409 | AND and OR between terms |
| SqlClauses.ConstantsAreSaid | internal/policy/mysql.go:496-498 | NULL, TRUE and FALSE |
| SqlClauses.DirectionsAreSaid | internal/policy/mysql.go:465-470 | ASC and DESC after a key |
| SqlClauses.ItemIsSaid | internal/policy/mysql.go:389-397 | AS and a name after an item |
| SqlClauses.AliasIsSaid | internal/policy/mysql.go:332-334 | AS and a name after a table |
| SqlClauses.OnIsSaid | internal/policy/mysql.go:364-367 | ON before the condition of a join |
| SqlClauses.JoinIsSaid | internal/policy/mysql.go:350-371 | CROSS or INNER, LEFT or RIGHT with OUTER or without, and JOIN |
| SqlText.SelectWithinReadOnly | internal/policy/mysql.go:79-95 | every query accepted by the older validator is accepted by the newer |
| SqlText.ReprintingKeepsAcceptance | internal/policy/mysql.go:119-219 | printing a scanned query anew changes the answer of neither validator |
| SqlText.AcceptedTextIsPlain | internal/policy/mysql.go:119-219 | an accepted query has no backslash, and outside literals only white space and bytes of tokens |
| SqlText.AcceptedTokens | internal/policy/mysql.go:490-601 | in an accepted query SELECT stands at the start only, UNION, INTO, OUTFILE, DUMPFILE, FOR, LOCK, PROCEDURE, USING and WITH nowhere; of the words that are not reserved only COUNT, SUM, AVG, MIN, MAX, UPPER, LOWER and REPLACE stand before a bracket, and touch it; brackets balance and nest to 64 at most |
| Commands.Command.constructor | internal/command/command.go:62-80 | a queued command with its own payload and hash |
| Commands.Command.Transition | internal/command/command.go:121-153 | moves exactly along the ten named transitions, else changes nothing; times and exit code follow |
| Commands.LifeIsShort | internal/command/command.go:142-153 | a command has at most four states in its life, none twice, and nothing follows a terminal one |
| Approvals.AcceptedIsBound | internal/approval/approval.go:86-110 | Decide accepts exactly the known actions of a named actor for the ID and the hash of a waiting command, and alters nothing but an empty rule, which becomes the pattern of the payload |
| Approvals.Broker.Register | internal/approval/approval.go:62-72 | a request is registered unless one waits under the same ID |
| Approvals.Broker.Decide | internal/approval/approval.go:86-112 | the answer, and on acceptance the request leaves the map; a request is accepted at most once |
| Approvals.Broker.Send | internal/approval/approval.go:113 | the channel is empty when the decision is sent: the send cannot block |
| Approvals.Broker.Receive | internal/approval/approval.go:74-76 | what Wait returns is the accepted decision, for this ID and hash |
| Approvals.Broker.GiveUp | internal/approval/approval.go:77-82 | a cancelled Wait removes another request exactly if another one waits under its ID, and never if no ID is used twice |
| Approvals.GiveUpTakesAnother | internal/approval/approval.go:62-116 | calls of the broker after which an undecided request is gone from the map |
| GateProtocol.FollowIsRun | internal/gate/service.go:252-399 | steps that one submission can take one after another are steps of the whole system: they log what they log for it alone and leave all other submissions as they are |
| GateProtocol.OthersDoNotMatter | internal/gate/service.go:252-399 | however the steps of others interleave with those of a submission, its state and what is logged of it are those of its own steps alone |
| GateInvariant.InvStep | internal/gate/service.go:252-399 | every step of every submission, of the operator and of the broker keeps the invariant |
| GateInvariant.InvRun | internal/gate/service.go:252-399 | the invariant holds after every interleaving of steps |
| GateInvariant.GoodAdvance | internal/gate/service.go:270-345 | each store or sink call of a submission, succeeding or failing, keeps the facts about it |
| GateSafety.ExecutionIsAuthorized | internal/gate/service.go:320-350 | a payload handed to a backend equals the submitted bytes, its row was stored as running before, and the recorded verdict is ALLOW or an approval for its ID and hash was stored before that |
| GateSafety.ExecutedAtMostOnce | internal/gate/service.go:348-350 | no command is executed twice |
| GateSafety.ExecutingRow | internal/storage/storage.go:331-339 | while a command executes, its row is running and holds the submitted bytes and hash |
| GateSafety.StoredWasAccepted | internal/storage/storage.go:341-347 | a stored approval was returned by Wait and before that accepted by Decide, for the submitted bytes |
| GateSafety.AcceptedIsStored | internal/approval/approval.go:74-83 | an accepted decision is stored if and only if Wait did not take the cancellation and storing it did not fail; Wait can take the cancellation of a cancelled submission only |
| GateRaces.AcceptedAndDropped | internal/approval/approval.go:74-116 | for every submission that is asked about and every decision that is accepted for it, a run in which that decision is accepted and sent and never stored |
| GateSafety.AcceptedAtMostOnce | internal/approval/approval.go:86-116 | at most one decision for a command is accepted |
| GateSafety.WaitEndsOnce | internal/approval/approval.go:74-83 | a Wait ends with a decision or with a cancellation, never both |
| GateSafety.PendingExactly | internal/approval/approval.go:62-116 | the pending map holds exactly the requests that no decision and no cancellation has removed, and a send finds its channel empty |
| GateAuthority.RuleFrom | internal/policy/policy.go:144-173 | a rule in force for a target was added for it and the target has not been detached since |
| GateAuthority.ExecutionHasAuthority | internal/gate/service.go:252-350 | end to end: the policy file allows it, or these bytes were approved, or a matching rule was added for the target since its last detach before the submission which an operator approved, since that detach too unless the approved submission stood between storing the approval and adding the rule when the target was detached |
| GateAuthority.GrantStands | internal/policy/policy.go:144-173 | a rule that was added is among those in force exactly as long as its target is not detached |
| GateAuthority.GrantAtExecution | internal/gate/service.go:269-350 | the grant a submission was judged by is still in force when it is executed if and only if the target has not been detached since the submission, and then the policy would still allow the payload |
| GateRaces.JudgedThenDetached | internal/gate/service.go:269-350 | for every rule granted for a target and every payload it allows, a run in which the target is detached after the payload is judged and the payload is executed with no rule in force |
| GateAuthority.ApprovedBeforeDetach | internal/gate/service.go:304-316 | for any detach before a rule is added, the approval of the rule precedes the detach if and only if its submission stood between storing the approval and adding the rule at that moment |
| GateRaces.ApprovedThenDetached | internal/gate/service.go:304-316 | for every approval for a target, a run in which the target is detached after it is stored and its rule is in force afterwards |
| GateAuthority.RuleAskedFor | internal/approval/approval.go:105-109 | the rule of a stored approval for a target is the one the operator asked for, or the pattern of the approved payload |
| GateAuthority.DefaultRuleReach | internal/approval/approval.go:105-109 | what runs under a rule the operator did not write differs from a payload approved for the same target in standalone numbers after the first word and in nothing else |
| GateExecution.ExecuteCommand | internal/gate/service.go:252-382 | execute, in its own order of calls: how it ends tells which calls of the store it has made, with which states and exit codes and answers, and what the row holds: succeeded with 0, failed with the exit code, failed or cancelled with 1, denied with 126, or what was stored last; whether it returns an error; and the approvals, rules and payloads run; a decision names this ID and hash. It is a run of the machine that logs the same, and other rows and requests are untouched |
| GateExecution.ExecutedWithAuthority | internal/gate/service.go:320-350 | such an execution after any run of the machine: what it hands to a backend is explained there by submission, row and verdict or approval |
| GateExecution.InterleavedExecution | internal/gate/service.go:252-399 | and however its steps interleave with those of others, it comes to the same end and logs the same |
| GateExecution.Execution.Ask | internal/gate/service.go:286-315 | asking, waiting in the broker while an operator tries decisions and the submission may be cancelled, recording, denying and adding the rule: the steps of the machine, and the decision or how it ended |
| GateExecution.Execution.FinishDenied | internal/gate/service.go:384-399 | the denied end: the row is denied with 126 if the store answers, and the sink is told in three calls |
| GateExecution.Tables.CreateCommand | internal/storage/storage.go:320-329 | inserts the row of a new ID, or fails and changes nothing |
| GateExecution.Tables.UpdateCommand | internal/storage/storage.go:331-339 | updates state and exit code of an existing row, or fails and changes nothing |
| GateExecution.Tables.RecordApproval | internal/storage/storage.go:341-347 | adds an approval, or fails and changes nothing |
| AuditOutput.FlaggedExactly | internal/storage/storage.go:370-386 | a row is flagged as truncated if and only if more arrived than the limit and no chunk filled it to the last byte |
| AuditOutput.ExactFillIsSilent | internal/storage/storage.go:370-386 | two chunks for which output is dropped and no row is flagged |
| AuditWriting.Store.AppendOutput | internal/storage/storage.go:351-393 | for any limit the transaction appends what fits, tells what was stored and whether something was dropped, or changes nothing; with one limit throughout the rows of a command are the first bytes that arrived, in order; with any limits no row comes after a flagged one |
| AuditWriting.Store.OutputPreview | internal/storage/storage.go:543-577 | the previews are the first bytes stored for stdout and stderr, as many as asked for, or 4096 if that is not from 1 to 65536 |
| AuditWriting.Writer.Write | internal/gate/service.go:690-722 | every chunk is recorded and relayed while other streams and commands run in between, in pieces of 32768 bytes but for the last; an error sticks |
| AuditWriting.Writer.Relay | internal/gate/service.go:702-719 | one chunk: record, relay, and tell once |
| AuditWriting.Writer.SinkGets | internal/gate/service.go:690-722 | the sink has the bytes of the stream among the first the limit admits, in order of arrival, and one marker after them exactly when some of the stream was dropped |
| AuditWriting.RelayBoth | internal/gate/service.go:346-351 | the two writers of an execution take turns call by call, with each other and with other commands: each stream that does not fail is delivered as the limit admits, with the marker exactly if that is not all of it |
| AuditWriting.StoredOnIs | internal/storage/storage.go:547-572 | the stored bytes of a stream are those of its bytes that are stored |
| Strings.FieldsTrimmed | internal/forward/alias.go:170-171 | trimming a text before its fields are taken changes nothing, for Unicode white space and text that is not UTF-8 too |
| Strings.TrimmedEnds | internal/forward/alias.go:226 | a trimmed text has no white space of any kind at its ends |
| Strings.TrimmedAway | internal/forward/alias.go:226 | the characters that are trimmed are the 25 that Unicode counts as white space, each range and character named |
| Strings.OtherLetters | internal/forward/alias.go:226-247 | the characters beyond ASCII that have an ASCII letter in lower case, or under folding: the Kelvin sign, the dotted I, the long s |
| HostNames.NormalizesExactly | internal/forward/alias.go:225-240 | a name is accepted if and only if, once trimmed and in lower case, it is at most 253 bytes of at least two dotted labels of 1 to 63 letters, digits and inner hyphens, and no IP address; the result is that text |
| HostNames.NormalReads | internal/forward/alias.go:226 | of a printable text, ASCII white space around it and one dot at its end are taken off and its letters lowered |
| HostNames.FieldNames | internal/forward/alias.go:242-254 | a field names a host exactly if it is the name in letters of either case, or that with a dot at its end |
| HostsFile.NormalizedIsPlain | internal/forward/alias.go:225-240 | a normalised name has nothing with a meaning in a hosts file, and normalising it again changes nothing |
| HostsFile.OwnedLineSays | internal/forward/alias.go:184 | an owned line is one line, carries its marker, and names its host and no other |
| HostsFile.OwnedLineIs | internal/forward/alias.go:184 | an owned line is 127.0.0.1, a tab, the name, # and the marker, and its fields are the address and the name |
| HostsText.SplitNaming | internal/forward/alias.go:169-180 | the search of the split file finds a name exactly when some line names it |
| HostsText.KeptText | internal/forward/alias.go:193-205 | keeping the other lines gives the file without the owned one |
| HostAliases.LiveOnOneLine | internal/forward/alias.go:64-142 | after any calls, whichever of their steps fail, a live alias is on exactly one line, or on none if and only if some removal of it, since it was added, rewrote the file and then failed in the store |
| HostAliases.HalfRemovalTakesLine | internal/forward/alias.go:135-141 | such a removal takes the line of every alias that has one and leaves the alias |
| HostAliases.AliasWithoutLine | internal/forward/alias.go:64-142 | two calls after which an alias is live and on no line |
| HostAliases.LineWithoutAlias | internal/forward/alias.go:99-106 | a call after which a line stays and there is no alias |
| HostAliases.FileIsUserAndAliases | internal/forward/alias.go:64-142 | after any calls the file is the text of the user, ended with a newline once anything was added, and lines in the order of addition: one for each live alias that is not half removed, and those of additions that failed in the store and could not take their line out; so every name is on just those lines beyond the ones the user wrote |
| HostAliases.AddExactly | internal/forward/alias.go:64-108 | an alias is added if and only if the name is valid, the forward is active for the target, no alias and no line of the file has the name, and file and store work; for each other outcome, when it comes and what it leaves in the file and the aliases |
| HostAliases.RemoveExactly | internal/forward/alias.go:123-142 | an alias is removed if and only if it is there, it is of this target, and file and store work; likewise for the other outcomes |
| HostAliases.AliasManager.Add | internal/forward/alias.go:64-108 | which step fails determines the outcome: nothing changed, the line and the alias added, the line taken out again, or the line left without an alias |
| HostAliases.AliasManager.Remove | internal/forward/alias.go:123-142 | removes the line, then the alias; nothing changes if the file fails, and if the store fails the alias stays without its line |
| HostAliases.AliasManager.AddOwnedLine | internal/forward/alias.go:164-186 | appends an owned line exactly if the file can be read, no line names the host, and the file can be written |
| HostAliases.AliasManager.RemoveOwnedLine | internal/forward/alias.go:188-206 | rewrites the file without the lines that have the marker and name the host |
| HostAliases.AliasManager.FieldsName | internal/forward/alias.go:242-254 | whether a line names a host |
| Framing.Reader.ReadSlice | internal/protocol/protocol.go:101 | the part depends on the stream and the buffer size alone, not on how the bytes came in; only whether a buffer filled by the last bytes counts as full or as the end does |
| Framing.Decoder.Decode | internal/protocol/protocol.go:98-127 | decodes the next frame of the stream whatever the buffer size and the pieces, and takes just its line; of a frame that is too long it takes the line, or so many whole buffers as exceed the limit |
| Framing.Encoder.Encode | internal/protocol/protocol.go:137-149 | writes the frame and a newline, refusing exactly what is longer than the limit |
| Framing.LimitAgrees | internal/protocol/protocol.go:102-144 | the decoder accepts a newline-free frame exactly when the encoder would, to the byte |
| Framing.FramesRoundTrip | internal/protocol/protocol.go:98-149 | what was encoded is decoded to the same frames, and then the stream ends |
| Framing.Converse | internal/protocol/protocol.go:98-149 | a client and a server over a connection of any pace: a prefix of the frames, and all of them unless the connection breaks |

## Left out

- GateProtocol: the submissions, the broker and the tables are values that steps replace, because many goroutines work on them; the objects that one submission works on are modelled as objects in `GateExecution`, where it runs alone; `GateExecution.InterleavedExecution` carries its steps over to any interleaving.
- GateProtocol: an ID is fresh when it is submitted, and SHA-256 is a function about which nothing is assumed; collisions and random numbers are not modelled.
- GateExecution.ExecuteCommand: sessions, the target registry and the choice of the backend come before it; its ID is not in use in the broker or in the table; authorizeCapability takes the same steps, with the operation of the capability in the place of Exec.
- GateExecution.Tables.CreateCommand: a write happens as a whole or not at all, and other columns and tables are not part of the model.
- RedactorChain.StreamRedacted: a destination that has failed once fails from then on, as the writers of the audit trail do; a destination that recovers is not modelled.
- Approvals.Broker.Send: times of decisions and the notifications of changes are not modelled.
- PolicyEngine.Engine.Evaluate: regular expressions and argument validators are parameters; reading the YAML file and compiling its rules are not modelled.
- SimilarRules.SimilarRuleEffect: assumes that Go reads compiled patterns of quoted bytes, dots and ranges as `SimilarPattern.PatternMatches` does on UTF-8 text; for text that is not UTF-8 nothing is assumed, as such text is never readable.
- ShellViews.CommandViews: the certificate probe's own argument checks and its identifier pattern are parameters.
- ShellRefinement.TokenizerRefinesPosix: tilde expansion inside assignments and reserved words are not part of the reference, which is about quoting and splitting.
- HostsFile.NormalizedIsPlain: which texts are IP addresses is a parameter; lower case and folding are modelled where they give ASCII text, which every accepted name is.
- HostAliases.AliasManager.Add: the marker is fresh in the file, nothing else edits the file between calls, and the active forwards are a list.
- AuditWriting.RelayBoth: the streams are given as the chunks that are recorded one by one, which the loop of `AuditWriting.Writer.Write` cuts them into; each stream's goroutine stops at its first error.
- AuditWriting.Writer.Write: what other streams and commands do between two calls is any sequence of appends and relays of theirs; times are not recorded.
- Framing.Decoder.Decode: JSON is a test of bytes; where a connection breaks within a frame that is too long, the position in the stream is only bounded.
- The other argument validators (mysql wrappers, ls, tail, capture, journal, rtpengine) and the review of policies are bounded checks of fixed lists and are not modelled.
- Stale aliases at start, closing all aliases of a forward or a target, and the tunnels themselves are not modelled.
- The operator's console, SSH and Sancho processes, sockets, clocks and files other than the hosts file are not modelled.
