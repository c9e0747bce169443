# Verification of glog's demangler, VLOG cache and small protocols

A Dafny model of five parts of the logging library, with proofs.

* **The demangler** (`src/demangle.cc`). `Demangler.dfy` has the `State` class, whose methods are
  the parsing functions; they update its fields and write the buffer in place. Each is proved
  against `Grammar.dfy`, a recogniser over positions that never looks at the output: it says where
  the function leaves the cursor and which trace of output actions it performs. So the answer and
  the cursor depend on the mangled name alone. `Output.dfy` has the output half of the state and the
  functions that print, `Trace.dfy` what a trace does to it, and `TraceTheorems.dfy` what holds of
  every trace: the cursors stay in the buffer, suppression, and that the bytes in the buffer refine
  an ideal text which knows neither buffers nor abandoned alternatives. `SpareRoom.dfy` shows that
  three bytes behind that text are enough, however long the abandoned alternatives, and that fewer
  bytes than text and NUL need are noticed. `Outcomes.dfy`, `DemanglerTheorems.dfy`,
  `EndlessRuns.dfy` and `CloneSuffix.dfy` draw the conclusions.
* **What the demangler understands.** `Abi.dfy` is written apart from the demangler: the symbols of
  the Itanium C++ ABI (section 5.1, External Names) as trees, how they are encoded, and the text
  that stands for them. `Tables.dfy` ties the demangler's tables to it. `Reading.dfy` and the files
  named after it (`ReadingParts.dfy`, `ReadingNames.dfy`, `ReadingPaths.dfy`, `ReadingTypes.dfy`,
  `ReadingExpressions.dfy`, `ReadingEncodings.dfy`) take one alternative of one parsing function at
  a time, `Refusals.dfy` and `FirstCharacters.dfy` say which alternatives are passed over, and
  `Acceptance.dfy` is the induction over trees: whatever is encoded is accepted, up to its end, and
  prints its text. `PlainText.dfy` is about the text, and `RoundTrip.dfy` puts it all together.
* **The VLOG level cache** (`src/vlog_is_on.cc`, `src/googlelog/vlog_is_on.h.in`). `Vlog.dfy` has
  the two linked lists, the flag parser that builds one, the in-place removal from the other, and
  the sites with their cached pointers. `VlogSpec.dfy` is the machine without a cache,
  `FnMatch.dfy` the glob matcher, `VModuleFlag.dfy` the syntax of `--vmodule`.
* **Log counters** (`src/googlelog/logging.h.in`). `LogCounters.dfy` has `LOG_FIRST_N` as a state
  machine over the atomic steps of any number of threads, and the sequential counters of
  `LOG_EVERY_N` and `LOG_IF_EVERY_N` in their three platform versions.
* **The failure signal handler** (`src/signalhandler.cc`). `SignalGate.dfy` has its gate as a state
  machine over signals, nested ones included, and the steps of all invocations.
* **Its formatter** (`src/signalhandler.cc`). `Formatter.dfy` has `MinimalFormatter` over an array.

Where a function of the source tries several alternatives one after the other, each
`if (A && B) return true; *state = copy;` is a function and a method of its own, called from the
one that bears the name of the source's function. Loop bodies and the steps of list surgery are
sometimes methods of their own as well. Positions in the mangled name and in the output are
integers; `prev_name` and `prev_name_length` are one value, a stretch of the output. C strings are
the characters before the NUL.

## What turned out not to hold

* The convention that a failing parsing function changes nothing (`src/demangle.cc:463-469`) is
  broken by the number, offset, ABI-tag, mangled-name and top-level functions, which may leave the
  cursor further on: `DemanglerTheorems.FailuresThatMoveTheCursor` gives the exact conditions. One
  consequence is that a stray `B` behind ABI tags is swallowed (`EndlessRuns.TagsStand`,
  `StrayTagAccepted`).
* The demangler need not terminate: a source name with a negative length leads the cursor back, and
  any of its loops can stay where it is. `EndlessRuns.TurnReturns` says for which characters a turn
  of the loop over a prefix ends where it began, leaving out names inside the type of a cast, and
  `NeverEnds` that every name whose nested name starts with such a turn never comes to an end;
  `CallReturns` and `CallsNeverEnd` do the same for the loops over ABI tags, over the types of
  parameters and over template arguments, for the latter two at a vendor's type. `TurnTheLoop` and
  `CallTheLoop` are the parsing methods doing so. `DemanglerTheorems.NoNegativeNumbers` is a
  condition on the input that excludes all of it.
* A buffer can be one byte too small and the answer still true: an abandoned alternative may drop a
  separator, whose cancellation overwrites the first of two `<` and with it the reason for the space
  between them (`Outcomes.SpaceLost`, on traces). That needs a text that ends in `< <` and fills the
  buffer; no symbol without a version has one (`RoundTrip.ShownIsPlain`).
* The glob matcher refuses some strings that the pattern means. On strings without a star it is
  exact for the patterns that do not end in two stars and no others (`FnMatch.MatchIsGlob`); on all
  strings, and `SetVLOGLevel` does match its pattern as a string, for the patterns without a star
  and no others (`MatchIsGlobEverywhere`). `FinalStar` is the exact condition for a final star.
* A site that is on an entry of `--vmodule` stays there when `SetVLOGLevel` is given a wildcard
  pattern that matches its name but no entry (`Vlog.Vlog.LeaveBehind`). As long as
  that does not happen the cache is exact over every run (`Vlog.Run`); with patterns free of
  wildcards it never does (`VlogSpec.LiteralIsHarmless`).
* `LOG_FIRST_N` may log fewer than n messages, by up to one less than there are threads and by no
  more (`LogCounters.FirstNLost`, `AsManyLost`); all n are certain exactly if there is one thread
  (`AllCertainIffAlone`).
* With the fallback compare-and-swap the signal gate lets two invocations through
  (`SignalGate.NaiveLetsTwoThrough`).

## Model

| member | source | states |
|---|---|---|
| Grammar.MangledName | src/demangle.cc:484-486 | <mangled-name> at a position: as for the other parsing functions, except that a failure may leave the cursor further on |
| Grammar.Encoding | src/demangle.cc:491-502 | <encoding> at a position: success leaves the cursor strictly further and not past the terminator, with append and nesting level as at entry; failure leaves the cursor and every other field as at entry; no run steps back unless some source name of the input does |
| Grammar.Name | src/demangle.cc:508-525 | <name> at a position: success leaves the cursor strictly further and not past the terminator, with append and nesting level as at entry; failure leaves the cursor and every other field as at entry; no run steps back unless some source name of the input does |
| Grammar.UnscopedName | src/demangle.cc:529-542 | <unscoped-name> at a position: success leaves the cursor strictly further and not past the terminator, with append and nesting level as at entry; failure leaves the cursor and every other field as at entry; no run steps back unless some source name of the input does |
| Grammar.UnscopedTemplateName | src/demangle.cc:546-548 | <unscoped-template-name> at a position: success leaves the cursor strictly further and not past the terminator, with append and nesting level as at entry; failure leaves the cursor and every other field as at entry; no run steps back unless some source name of the input does |
| Grammar.NestedName | src/demangle.cc:552-564 | <nested-name> at a position: success leaves the cursor strictly further and not past the terminator, with append and nesting level as at entry; failure leaves the cursor and every other field as at entry; no run steps back unless some source name of the input does |
| Grammar.Prefix | src/demangle.cc:577-596 | <prefix> at a position: always succeeds, with the cursor not before entry nor past the terminator, and every separator it cancels is one just appended |
| Grammar.UnqualifiedName | src/demangle.cc:602-607 | <unqualified-name> at a position: success leaves the cursor strictly further and not past the terminator, with append and nesting level as at entry; failure leaves the cursor and every other field as at entry; no run steps back unless some source name of the input does |
| Grammar.SourceName | src/demangle.cc:610-618 | <source-name> at a position: success moves the cursor strictly forward within the input; failure leaves the cursor and every other field as at entry |
| Grammar.LocalSourceName | src/demangle.cc:625-633 | <local-source-name> at a position: success leaves the cursor strictly further and not past the terminator, with append and nesting level as at entry; failure leaves the cursor and every other field as at entry; no run steps back unless some source name of the input does |
| Grammar.Number | src/demangle.cc:638-660 | <number> at a position: prints nothing and never steps back; success moves the cursor strictly forward; a failure may leave it further on |
| Grammar.AbiTags | src/demangle.cc:710-719 | <abi-tags> at a position: success leaves the cursor strictly further and not past the terminator, with append and nesting level as at entry; failure leaves the cursor and every other field as at entry; no run steps back unless some source name of the input does |
| Grammar.AbiTag | src/demangle.cc:722-724 | <abi-tag> at a position: as for the other parsing functions, except that a failure may leave the cursor further on |
| Grammar.OperatorName | src/demangle.cc:729-772 | <operator-name> at a position: success leaves the cursor strictly further and not past the terminator, with append and nesting level as at entry; failure leaves the cursor and every other field as at entry; no run steps back unless some source name of the input does |
| Grammar.SpecialName | src/demangle.cc:792-851 | <special-name> at a position: success leaves the cursor strictly further and not past the terminator, with append and nesting level as at entry; failure leaves the cursor and every other field as at entry; no run steps back unless some source name of the input does |
| Grammar.CallOffset | src/demangle.cc:855-870 | <call-offset> at a position: success leaves the cursor strictly further and not past the terminator, with append and nesting level as at entry; failure leaves the cursor and every other field as at entry; it never steps back |
| Grammar.NVOffset | src/demangle.cc:873-875 | <nv-offset> at a position: prints nothing and never steps back; success moves the cursor strictly forward; a failure may leave it further on |
| Grammar.VOffset | src/demangle.cc:878-886 | <v-offset> at a position: success leaves the cursor strictly further and not past the terminator, with append and nesting level as at entry; failure leaves the cursor and every other field as at entry; it never steps back |
| Grammar.CtorDtorName | src/demangle.cc:890-911 | <ctor-dtor-name> at a position: success leaves the cursor strictly further and not past the terminator, with append and nesting level as at entry; failure leaves the cursor and every other field as at entry; it never steps back |
| Grammar.Type | src/demangle.cc:933-984 | <type> at a position: success leaves the cursor strictly further and not past the terminator, with append and nesting level as at entry; failure leaves the cursor and every other field as at entry; no run steps back unless some source name of the input does |
| Grammar.CVQualifiers | src/demangle.cc:989-995 | <CV-qualifiers> at a position: success leaves the cursor strictly further and not past the terminator, with append and nesting level as at entry; failure leaves the cursor and every other field as at entry; it never steps back |
| Grammar.BuiltinType | src/demangle.cc:999-1015 | <builtin-type> at a position: success leaves the cursor strictly further and not past the terminator, with append and nesting level as at entry; failure leaves the cursor and every other field as at entry; no run steps back unless some source name of the input does |
| Grammar.FunctionType | src/demangle.cc:1018-1027 | <function-type> at a position: success leaves the cursor strictly further and not past the terminator, with append and nesting level as at entry; failure leaves the cursor and every other field as at entry; no run steps back unless some source name of the input does |
| Grammar.BareFunctionType | src/demangle.cc:1030-1040 | <bare-function-type> at a position: success leaves the cursor strictly further and not past the terminator, with append and nesting level as at entry; failure leaves the cursor and every other field as at entry; no run steps back unless some source name of the input does |
| Grammar.ClassEnumType | src/demangle.cc:1043-1045 | <class-enum-type> at a position: success leaves the cursor strictly further and not past the terminator, with append and nesting level as at entry; failure leaves the cursor and every other field as at entry; no run steps back unless some source name of the input does |
| Grammar.ArrayType | src/demangle.cc:1049-1063 | <array-type> at a position: success leaves the cursor strictly further and not past the terminator, with append and nesting level as at entry; failure leaves the cursor and every other field as at entry; no run steps back unless some source name of the input does |
| Grammar.PointerToMemberType | src/demangle.cc:1066-1074 | <pointer-to-member-type> at a position: success leaves the cursor strictly further and not past the terminator, with append and nesting level as at entry; failure leaves the cursor and every other field as at entry; no run steps back unless some source name of the input does |
| Grammar.TemplateParam | src/demangle.cc:1078-1092 | <template-param> at a position: success leaves the cursor strictly further and not past the terminator, with append and nesting level as at entry; failure leaves the cursor and every other field as at entry; it never steps back |
| Grammar.TemplateTemplateParam | src/demangle.cc:1097-1100 | <template-template-param> at a position: success leaves the cursor strictly further and not past the terminator, with append and nesting level as at entry; failure leaves the cursor and every other field as at entry; it never steps back |
| Grammar.TemplateArgs | src/demangle.cc:1103-1115 | <template-args> at a position: success leaves the cursor strictly further and not past the terminator, with append and nesting level as at entry; failure leaves the cursor and every other field as at entry; no run steps back unless some source name of the input does |
| Grammar.TemplateArg | src/demangle.cc:1122-1143 | <template-arg> at a position: success leaves the cursor strictly further and not past the terminator, with append and nesting level as at entry; failure leaves the cursor and every other field as at entry; no run steps back unless some source name of the input does |
| Grammar.Expression | src/demangle.cc:1154-1199 | <expression> at a position: success leaves the cursor strictly further and not past the terminator, with append and nesting level as at entry; failure leaves the cursor and every other field as at entry; no run steps back unless some source name of the input does |
| Grammar.ExprPrimary | src/demangle.cc:1206-1235 | <expr-primary> at a position: success leaves the cursor strictly further and not past the terminator, with append and nesting level as at entry; failure leaves the cursor and every other field as at entry; no run steps back unless some source name of the input does |
| Grammar.LocalName | src/demangle.cc:1240-1255 | <local-name> at a position: success leaves the cursor strictly further and not past the terminator, with append and nesting level as at entry; failure leaves the cursor and every other field as at entry; no run steps back unless some source name of the input does |
| Grammar.Discriminator | src/demangle.cc:1258-1265 | <discriminator> at a position: success leaves the cursor strictly further and not past the terminator, with append and nesting level as at entry; failure leaves the cursor and every other field as at entry; it never steps back |
| Grammar.Substitution | src/demangle.cc:1270-1301 | <substitution> at a position: success leaves the cursor strictly further and not past the terminator, with append and nesting level as at entry; failure leaves the cursor and every other field as at entry; it never steps back |
| Grammar.TopLevelMangledName | src/demangle.cc:1305-1323 | a whole symbol with its suffix at a position: success consumes something, ends within the input and restores append and nesting level; it steps back only if some source name of the input does |
| Grammar.OneOrMore | src/demangle.cc:250-257 | one or more calls through a function pointer: as for the other parsing functions, except that a failure may leave the cursor further on |
| Grammar.ZeroOrMore | src/demangle.cc:263-267 | any number of calls through a function pointer: always succeeds with the cursor not before entry nor past the terminator; append and nesting level as at entry |
| Demangler.State.ParseOneCharToken | src/demangle.cc:210-216 | whether the character is there, and one step forward if so; touches nothing but the cursor |
| Demangler.State.ParseTwoCharToken | src/demangle.cc:221-228 | whether both characters are there, and two steps forward if so; touches nothing but the cursor |
| Demangler.State.ParseCharClass | src/demangle.cc:232-241 | whether a character of the class is there, and one step forward if so; touches nothing but the cursor |
| Demangler.State.ParseFloatNumber | src/demangle.cc:664-676 | whether a run of lower-case hexadecimal digits starts here, and a move to its end; touches nothing but the cursor |
| Demangler.State.ParseSeqId | src/demangle.cc:680-692 | whether a run of base-36 digits starts here, and a move to its end; touches nothing but the cursor |
| Demangler.State.ParseIdentifier | src/demangle.cc:695-707 | refuses -1 and lengths beyond the input; else moves by the length and prints the identifier, or (anonymous namespace) |
| Demangler.State.ParseMangledName | src/demangle.cc:484-486 | <mangled-name>: the answer and the final cursor are a function of the mangled name and the entry cursor alone, those of Grammar.MangledName; every output field and byte is what its trace, run on the output at entry, leaves |
| Demangler.State.ParseEncoding | src/demangle.cc:491-502 | <encoding>: the answer and the final cursor are a function of the mangled name and the entry cursor alone, those of Grammar.Encoding; every output field and byte is what its trace, run on the output at entry, leaves |
| Demangler.State.ParseName | src/demangle.cc:508-525 | <name>: the answer and the final cursor are a function of the mangled name and the entry cursor alone, those of Grammar.Name; every output field and byte is what its trace, run on the output at entry, leaves |
| Demangler.State.ParseUnscopedName | src/demangle.cc:529-542 | <unscoped-name>: the answer and the final cursor are a function of the mangled name and the entry cursor alone, those of Grammar.UnscopedName; every output field and byte is what its trace, run on the output at entry, leaves |
| Demangler.State.ParseUnscopedTemplateName | src/demangle.cc:546-548 | <unscoped-template-name>: the answer and the final cursor are a function of the mangled name and the entry cursor alone, those of Grammar.UnscopedTemplateName; every output field and byte is what its trace, run on the output at entry, leaves |
| Demangler.State.ParseNestedName | src/demangle.cc:552-564 | <nested-name>: the answer and the final cursor are a function of the mangled name and the entry cursor alone, those of Grammar.NestedName; every output field and byte is what its trace, run on the output at entry, leaves |
| Demangler.State.ParsePrefix | src/demangle.cc:577-596 | <prefix>: the answer and the final cursor are a function of the mangled name and the entry cursor alone, those of Grammar.Prefix; every output field and byte is what its trace, run on the output at entry, leaves |
| Demangler.State.ParseUnqualifiedName | src/demangle.cc:602-607 | <unqualified-name>: the answer and the final cursor are a function of the mangled name and the entry cursor alone, those of Grammar.UnqualifiedName; every output field and byte is what its trace, run on the output at entry, leaves |
| Demangler.State.ParseSourceName | src/demangle.cc:610-618 | <source-name>: as Grammar.SourceName says, with the output its trace leaves; a length that leads back to the start of the name or before it is taken too, with the cursor there and the output untouched |
| Demangler.State.ParseLocalSourceName | src/demangle.cc:625-633 | <local-source-name>: the answer and the final cursor are those of Grammar.LocalSourceName, and every output field and byte is what its trace, run on the output at entry, leaves; where its source name leads back, the cursor follows and the output is untouched |
| Demangler.State.ParseNumber | src/demangle.cc:638-660 | <number>: the answer and the final cursor are a function of the mangled name and the entry cursor alone, those of Grammar.Number; every output field and byte is what its trace, run on the output at entry, leaves |
| Demangler.State.ParseAbiTags | src/demangle.cc:710-719 | <abi-tags>: the answer and the final cursor are a function of the mangled name and the entry cursor alone, those of Grammar.AbiTags; every output field and byte is what its trace, run on the output at entry, leaves |
| Demangler.State.ParseAbiTag | src/demangle.cc:722-724 | <abi-tag>: the answer and the final cursor are those of Grammar.AbiTag, and every output field and byte is what its trace, run on the output at entry, leaves; where its source name leads back, the cursor follows and the output is untouched |
| Demangler.State.ParseOperatorName | src/demangle.cc:729-772 | <operator-name>: the answer and the final cursor are a function of the mangled name and the entry cursor alone, those of Grammar.OperatorName; every output field and byte is what its trace, run on the output at entry, leaves |
| Demangler.State.ParseSpecialName | src/demangle.cc:792-851 | <special-name>: the answer and the final cursor are a function of the mangled name and the entry cursor alone, those of Grammar.SpecialName; every output field and byte is what its trace, run on the output at entry, leaves |
| Demangler.State.ParseCallOffset | src/demangle.cc:855-870 | <call-offset>: the answer and the final cursor are a function of the mangled name and the entry cursor alone, those of Grammar.CallOffset; every output field and byte is what its trace, run on the output at entry, leaves |
| Demangler.State.ParseNVOffset | src/demangle.cc:873-875 | <nv-offset>: the answer and the final cursor are a function of the mangled name and the entry cursor alone, those of Grammar.NVOffset; every output field and byte is what its trace, run on the output at entry, leaves |
| Demangler.State.ParseVOffset | src/demangle.cc:878-886 | <v-offset>: the answer and the final cursor are a function of the mangled name and the entry cursor alone, those of Grammar.VOffset; every output field and byte is what its trace, run on the output at entry, leaves |
| Demangler.State.ParseCtorDtorName | src/demangle.cc:890-911 | <ctor-dtor-name>: the answer and the final cursor are a function of the mangled name and the entry cursor alone, those of Grammar.CtorDtorName; every output field and byte is what its trace, run on the output at entry, leaves |
| Demangler.State.ParseType | src/demangle.cc:933-984 | <type>: the answer and the final cursor are a function of the mangled name and the entry cursor alone, those of Grammar.Type; every output field and byte is what its trace, run on the output at entry, leaves |
| Demangler.State.ParseCVQualifiers | src/demangle.cc:989-995 | <CV-qualifiers>: the answer and the final cursor are a function of the mangled name and the entry cursor alone, those of Grammar.CVQualifiers; every output field and byte is what its trace, run on the output at entry, leaves |
| Demangler.State.ParseBuiltinType | src/demangle.cc:999-1015 | <builtin-type>: the answer and the final cursor are those of Grammar.BuiltinType, and every output field and byte is what its trace, run on the output at entry, leaves; where its source name leads back, the cursor follows and the output is untouched |
| Demangler.State.ParseFunctionType | src/demangle.cc:1018-1027 | <function-type>: the answer and the final cursor are a function of the mangled name and the entry cursor alone, those of Grammar.FunctionType; every output field and byte is what its trace, run on the output at entry, leaves |
| Demangler.State.ParseBareFunctionType | src/demangle.cc:1030-1040 | <bare-function-type>: the answer and the final cursor are a function of the mangled name and the entry cursor alone, those of Grammar.BareFunctionType; every output field and byte is what its trace, run on the output at entry, leaves |
| Demangler.State.ParseClassEnumType | src/demangle.cc:1043-1045 | <class-enum-type>: the answer and the final cursor are a function of the mangled name and the entry cursor alone, those of Grammar.ClassEnumType; every output field and byte is what its trace, run on the output at entry, leaves |
| Demangler.State.ParseArrayType | src/demangle.cc:1049-1063 | <array-type>: the answer and the final cursor are a function of the mangled name and the entry cursor alone, those of Grammar.ArrayType; every output field and byte is what its trace, run on the output at entry, leaves |
| Demangler.State.ParsePointerToMemberType | src/demangle.cc:1066-1074 | <pointer-to-member-type>: the answer and the final cursor are a function of the mangled name and the entry cursor alone, those of Grammar.PointerToMemberType; every output field and byte is what its trace, run on the output at entry, leaves |
| Demangler.State.ParseTemplateParam | src/demangle.cc:1078-1092 | <template-param>: the answer and the final cursor are a function of the mangled name and the entry cursor alone, those of Grammar.TemplateParam; every output field and byte is what its trace, run on the output at entry, leaves |
| Demangler.State.ParseTemplateTemplateParam | src/demangle.cc:1097-1100 | <template-template-param>: the answer and the final cursor are a function of the mangled name and the entry cursor alone, those of Grammar.TemplateTemplateParam; every output field and byte is what its trace, run on the output at entry, leaves |
| Demangler.State.ParseTemplateArgs | src/demangle.cc:1103-1115 | <template-args>: the answer and the final cursor are a function of the mangled name and the entry cursor alone, those of Grammar.TemplateArgs; every output field and byte is what its trace, run on the output at entry, leaves |
| Demangler.State.ParseTemplateArg | src/demangle.cc:1122-1143 | <template-arg>: the answer and the final cursor are a function of the mangled name and the entry cursor alone, those of Grammar.TemplateArg; every output field and byte is what its trace, run on the output at entry, leaves |
| Demangler.State.ParseExpression | src/demangle.cc:1154-1199 | <expression>: the answer and the final cursor are a function of the mangled name and the entry cursor alone, those of Grammar.Expression; every output field and byte is what its trace, run on the output at entry, leaves |
| Demangler.State.ParseExprPrimary | src/demangle.cc:1206-1235 | <expr-primary>: the answer and the final cursor are a function of the mangled name and the entry cursor alone, those of Grammar.ExprPrimary; every output field and byte is what its trace, run on the output at entry, leaves |
| Demangler.State.ParseLocalName | src/demangle.cc:1240-1255 | <local-name>: the answer and the final cursor are a function of the mangled name and the entry cursor alone, those of Grammar.LocalName; every output field and byte is what its trace, run on the output at entry, leaves |
| Demangler.State.ParseDiscriminator | src/demangle.cc:1258-1265 | <discriminator>: the answer and the final cursor are a function of the mangled name and the entry cursor alone, those of Grammar.Discriminator; every output field and byte is what its trace, run on the output at entry, leaves |
| Demangler.State.ParseSubstitution | src/demangle.cc:1270-1301 | <substitution>: the answer and the final cursor are a function of the mangled name and the entry cursor alone, those of Grammar.Substitution; every output field and byte is what its trace, run on the output at entry, leaves |
| Demangler.State.ParseTopLevelMangledName | src/demangle.cc:1305-1323 | a whole symbol with its suffix: the answer and the final cursor are a function of the mangled name and the entry cursor alone, those of Grammar.TopLevelMangledName; every output field and byte is what its trace, run on the output at entry, leaves |
| Demangler.State.OneOrMore | src/demangle.cc:250-257 | the loop over a parsing function answers and ends as Grammar.OneOrMore says, with its output |
| Demangler.State.ZeroOrMore | src/demangle.cc:263-267 | the loop over a parsing function ends as Grammar.ZeroOrMore says, with its output |
| Demangler.State.constructor | src/demangle.cc:194-205 | the initial state: cursors at the start, no previous name, level -1, append on, not overflowed |
| Demangler.State.Append | src/demangle.cc:272-286 | writes character by character until the buffer is full: the new fields and bytes are those of Output.Append |
| Demangler.State.MaybeAppendWithLength | src/demangle.cc:329-345 | the fields and bytes after the space before a second <, the remembered name and the text, if append is on |
| Demangler.State.MaybeAppend | src/demangle.cc:348-354 | the output after printing a string when append is on, the cursor untouched |
| Demangler.State.MaybeAppendPrevName | src/demangle.cc:890-911 | the last identifier copied out of the output buffer to its end, as the trace action says |
| Demangler.State.MaybeAppendSeparator | src/demangle.cc:388-392 | the separator printed inside a nested name behind its first component |
| Demangler.State.MaybeCancelLastSeparator | src/demangle.cc:395-401 | the separator taken back, under its conditions |
| Demangler.State.Restore | src/demangle.cc:492-496 | *state = copy: every field of the struct as it was saved, the bytes of the buffer as they are |
| Demangler.State.IdentifierIsAnonymousNamespace | src/demangle.cc:405-410 | whether the identifier is longer than the prefix _GLOBAL__N_ and starts with it |
| Demangler.State.IsFunctionCloneSuffix | src/demangle.cc:305-325 | the scanning loop decides the clone-suffix language on the rest of the input |
| Demangler.Demangle | src/demangle.cc:1327-1361 | answer and buffer are Outcomes.Demangled; a refused name gives false; an accepted one gives true and its text at the start of the buffer if that leaves three bytes free, and false if the buffer does not hold the text and a NUL, but for a text that ends in < < and is as long as the buffer |
| CloneSuffix.CloneSuffixLanguage | src/demangle.cc:301-325 | accepted exactly if the string is a sequence of .letters.digits groups, each part non-empty |
| Output.Append | src/demangle.cc:272-286 | the output cursor moves by the length exactly if all fits, else the overflow flag is set; earlier bytes, the size and all other fields are kept; a cursor that moved stays below the size |
| Trace.ExecFrame | src/demangle.cc:269-401 | over any trace: the buffer keeps its size, overflow is not forgotten, append is restored, and so is the nesting level except by a prefix |
| Trace.SettledRestores | src/demangle.cc:463-469 | a failed function that follows the convention leaves every field of the struct as at entry |
| TraceTheorems.ControlKeptApart | src/demangle.cc:329-401 | what is printed never decides how: on any two outputs, of any sizes, with the same level and append flag every trace leaves the same level and append flag |
| TraceTheorems.ExecSound | src/demangle.cc:272-401 | over any trace, for any buffer size including 0: the output cursor stays in place (0, or below the size) through separator cancelling and backtracking |
| TraceTheorems.ExecSuppressed | src/demangle.cc:329-378 | with append off no trace changes the output cursor, the previous name, the overflow flag or any byte |
| TraceTheorems.ExecAgrees | src/demangle.cc:269-401 | a trace run on the buffer refines its ideal meaning, which knows no buffer and no abandoned alternatives: nothing is dropped exactly if all that is written on the way fits, and then text, previous name, level and append agree |
| TraceTheorems.AppendAgrees | src/demangle.cc:329-345 | printing into the buffer adds exactly the text (and the space before a second <) and remembers the identifier, or drops a character exactly if it does not fit |
| TraceTheorems.PrevNameAgrees | src/demangle.cc:890-911 | copying the previous name out of the output buffer prints the last identifier, although source and target share the buffer |
| TraceTheorems.RetractAgrees | src/demangle.cc:577-594 | a separator appended, a failed component behind it and the separator cancelled come to nothing |
| TraceTheorems.AbandonAgrees | src/demangle.cc:463-469 | an abandoned alternative may leave bytes behind, but only above the text |
| TraceTheorems.EndsTerminated | src/demangle.cc:272-286 | a trace whose last action prints or cancels leaves a NUL behind the text |
| SpareRoom.ExecHolds | src/demangle.cc:272-469 | over any trace and any buffer, whatever abandoned alternatives dropped: the bytes are those of the ideal text up to three before the end of the buffer, and all of it, with cursor, previous name and no overflow, if it leaves three bytes free |
| SpareRoom.ExecCounts | src/demangle.cc:272-469 | over any trace and any buffer: as long as nothing overflowed the cursor stands behind the ideal text also in the last three bytes, and the previous name is as long as the ideal one, but for a text that ends in < < |
| SpareRoom.EndsWithNul | src/demangle.cc:272-286 | a trace that ends by printing leaves a NUL behind the text in every buffer with three bytes to spare, even if abandoned alternatives overflowed it |
| Outcomes.TooSmallRefused | src/demangle.cc:1327-1361 | for every accepted name with a text: the answer is false for every buffer that does not hold the text and a NUL, but for a text that ends in < < and is as long as the buffer |
| Outcomes.SpaceLost | src/demangle.cc:272-401 | the exception is real for traces: one prints < twice into three bytes without overflow, where text and NUL need four |
| Outcomes.DemangledText | src/demangle.cc:1327-1361 | for every accepted name: nothing is dropped, on abandoned paths included, exactly if the buffer is roomy, and then Demangle succeeds and the buffer starts with exactly the ideal text |
| Outcomes.ThreeBytesToSpare | src/demangle.cc:1327-1361 | for every accepted name and every buffer with three bytes more than the text, however long the alternatives that were given up: Demangle succeeds and the buffer starts with the text; a smaller buffer holds the text up to its last three bytes |
| DemanglerTheorems.NoNegativeNumbers | src/demangle.cc:638-660 | without an n directly before a digit no call ever moves the cursor backwards, so every run of the grammar terminates normally |
| EndlessRuns.TagsStand | src/demangle.cc:263-724 | the loop over ABI tags, where the grammar follows it: k tags stand one behind another from its start, and it ends where the last of them ends, or behind a B that stands there and starts no tag |
| EndlessRuns.TurnIsPrefixItem | src/demangle.cc:577-607 | where no name leads back, a turn of the prefix loop, with all its alternatives, ends where the grammar says, and fails where the grammar does |
| EndlessRuns.TakeTurn | src/demangle.cc:577-607 | the parsing methods, called in the order of a turn, leave the cursor where Turn says, forwards and backwards: behind source names, local source names, vendor operators and lists of tags |
| EndlessRuns.TakeTags | src/demangle.cc:710-724 | the same for an optional list of tags |
| EndlessRuns.OneTurn | src/demangle.cc:577-607 | a turn ends in one way only: the number of tags it reads is determined |
| EndlessRuns.TurnReturns | src/demangle.cc:577-724 | a turn that does not read the type of a cast ends where it began exactly if there stand v, a digit and a name that leads back there; or a name whose end leads there, by tags if need be; or L and such a name, where the tags may also end at a stray B right before |
| EndlessRuns.NeverEnds | src/demangle.cc:552-596 | on every name that starts with _ZN and such a turn the grammar steps back, and after k turns the cursor is at position 3, for every k |
| EndlessRuns.ShortestTurns | src/demangle.cc:577-724 | n2, 1aBn5, Ln3 and v0n4, with no digit behind them, are such turns |
| EndlessRuns.TurnTheLoop | src/demangle.cc:577-596 | the parsing methods, k times through the body of the loop at such a turn, leave the cursor where it was |
| EndlessRuns.CallReturns | src/demangle.cc:249-267 | a call of the loop over ABI tags returns to its start exactly at B, n and digits whose value leads back to the B; one of the loops over types and template arguments that finds u and a name, exactly if the name leads back to the u |
| EndlessRuns.CallTheLoop | src/demangle.cc:249-267 | the parsing methods, called k times at such a place, leave the cursor where it was |
| EndlessRuns.CallsNeverEnd | src/demangle.cc:249-267 | every name that starts with _Z1aBn3, _Z1aun3 or _Z1aIun3 and no further digit comes to such a call of the respective loop |
| DemanglerTheorems.BacktrackingDiscipline | src/demangle.cc:463-469 | success leaves append and nesting level as at entry, failure leaves every field of the output half as at entry, and the cursors stay in place |
| DemanglerTheorems.FailuresThatMoveTheCursor | src/demangle.cc:638-724 | the functions that break the convention, the loop over ABI tags included, and for each the exact condition under which a failure keeps the cursor |
| DemanglerTheorems.StrayTagAccepted | src/demangle.cc:710-724 | so _Z1aB1bB is accepted, stray B and all |
| DemanglerTheorems.TopLevelFailureMovesTheCursor | src/demangle.cc:1305-1323 | a refused name leaves the cursor at the start exactly if it does not begin with _Z |
| DemanglerTheorems.ParametersPrintParentheses | src/demangle.cc:1030-1040 | a successful parameter list prints exactly (), whatever is nested in it |
| DemanglerTheorems.ArgumentsPrintBrackets | src/demangle.cc:1103-1115 | successful template arguments print exactly <>, whatever is nested in them |
| DemanglerTheorems.LargerBufferSameText | src/demangle.cc:1327-1361 | once a buffer is roomy every larger one gives the same text |
| Tables.OperatorFound | src/demangle.cc:54-106 | the code of each of the 49 operators of the ABI is found in the table, with the symbol the ABI gives it |
| Tables.OperatorNotFound | src/demangle.cc:54-106 | and no other two letters are |
| Tables.BuiltinFound | src/demangle.cc:109-132 | the letter of each of the 21 builtin types is found, with its name |
| Tables.StandardFound | src/demangle.cc:135-144 | so is that of each abbreviation of the standard library |
| Reading.SourceNameRead | src/demangle.cc:610-707 | an encoded length and identifier are read back, and print the identifier or (anonymous namespace) |
| Reading.NumberRead | src/demangle.cc:638-660 | an encoded integer, negative ones included, is read up to its end and prints nothing |
| ReadingParts.OperatorRead | src/demangle.cc:729-772 | the code of an operator is read and prints operator, a space in front of a word, and the symbol |
| ReadingParts.CastRead | src/demangle.cc:733-742 | cv and a type print operator, a space and the type, at nesting level 0 |
| ReadingParts.VendorRead | src/demangle.cc:744-750 | v, a digit and a source name print the name |
| ReadingParts.ParamRead | src/demangle.cc:1078-1092 | T, perhaps a number, and _ print a question mark |
| ReadingParts.SeenRead | src/demangle.cc:1270-1282 | S, perhaps a sequence id, and _ print a question mark |
| ReadingParts.StandardRead | src/demangle.cc:1284-1299 | an abbreviation prints std:: and the name it stands for |
| ReadingParts.CtorRead | src/demangle.cc:890-900 | C1 to C3 print the last name once more |
| ReadingParts.DtorRead | src/demangle.cc:902-909 | D0 to D2 print it behind a ~ |
| ReadingParts.DiscRead | src/demangle.cc:1258-1265 | a discriminator, if there is one, is read and not printed |
| ReadingNames.TagsRead | src/demangle.cc:710-724 | any number of ABI tags is read and not printed |
| ReadingNames.LocalRead | src/demangle.cc:625-633 | L, a source name, perhaps a number, and tags print the name |
| ReadingEncodings.OffsetRead | src/demangle.cc:855-886 | a fixed or virtual call offset is read and not printed |
| Acceptance.TypeRead | src/demangle.cc:933-984 | every encoded type, one constructor for each alternative (qualified, O, P, R, C and G, pack, decltype, vendor, builtin, function, class, arrays, pointer to member, abbreviation, substitution, parameter, template template), nested at will, is accepted, ends behind its encoding and prints its text |
| Acceptance.TypesRead | src/demangle.cc:1030-1040 | so is every list of types |
| Acceptance.ArgRead | src/demangle.cc:1122-1143 | and every template argument: type, literal, pack or expression |
| Acceptance.ArgsRead | src/demangle.cc:1103-1115 | and every list of template arguments, which prints as <> |
| Acceptance.LiteralRead | src/demangle.cc:1206-1235 | and every literal: integer, float, external name with and without its underscore |
| Acceptance.ExprRead | src/demangle.cc:1154-1199 | and every expression: parameter, literal, one to three operands behind an operator or a cast, sizeof, scoped name with and without arguments |
| Acceptance.UnqualifiedRead | src/demangle.cc:602-607 | and every unqualified name: identifier, operator, cast, vendor operator, local name |
| Acceptance.NameRead | src/demangle.cc:508-525 | and every name: nested, local, unscoped, in std, of a template, an abbreviation or a substitution |
| Acceptance.EntityIsRead | src/demangle.cc:1240-1247 | a local entity prints its function, :: and its own name; its number is not printed |
| Acceptance.StringLiteralIsRead | src/demangle.cc:1249-1254 | a string literal prints the function it is in |
| Acceptance.NestedRead | src/demangle.cc:552-564 | a nested name with any qualifiers prints its path |
| Acceptance.PathRead | src/demangle.cc:577-596 | the prefix loop reads the components of a path and prints them joined by ::, with <> for arguments, and a constructor or destructor by the last name printed |
| Acceptance.EncodingRead | src/demangle.cc:491-502 | every encoding is accepted, ends behind itself and prints its text: functions with parameters and () behind the name, objects without, and the special names |
| Acceptance.CovariantIsRead | src/demangle.cc:801-805 | a covariant thunk prints the function it leads to |
| Acceptance.ThunkIsRead | src/demangle.cc:813-817 | so does a thunk |
| Acceptance.ConstructionIsRead | src/demangle.cc:819-826 | a construction table prints the first of its types |
| PlainText.EncodingPlain | src/demangle.cc:329-345 | in the text of a symbol a lone < or << stands behind the word operator only |
| RoundTrip.TextIsShown | src/demangle.cc:1305-1323 | every mangled name (an encoding with nothing, the suffixes of clones or a version behind it) is accepted, and its text is the one written apart from the demangler; a version is printed, the suffix of a clone is not |
| RoundTrip.RoundTrip | src/demangle.cc:1305-1361 | so demangling it leaves that text and a NUL in any buffer with three bytes to spare |
| RoundTrip.NoRoom | src/demangle.cc:1327-1361 | and answers false in any buffer that does not hold the text and a NUL; only a version that ends in < < may make an exception of one that is as long as the text |
| RoundTrip.ShownIsPlain | src/demangle.cc:329-345 | no text of a symbol is empty or, without a version, ends in < < |
| RoundTrip.DemangleSymbol | src/demangle.cc:1327-1361 | the same for the method and the array |
| FnMatch.SafeFNMatch | src/vlog_is_on.cc:73-98 | the loop with its recursive call terminates and decides Match |
| FnMatch.MatchIsSound | src/vlog_is_on.cc:70-98 | whatever is matched is meant by the glob (* any run, ? one character) |
| FnMatch.MatchIsComplete | src/vlog_is_on.cc:70-98 | for strings without * and patterns not ending in two *, whatever the glob means is matched |
| FnMatch.MatchIsGlob | src/vlog_is_on.cc:70-98 | on all strings without * the matcher is the glob exactly if the pattern does not end in two * |
| FnMatch.MatchIsGlobEverywhere | src/vlog_is_on.cc:70-98 | on all strings, those with a * included, the matcher is the glob exactly if the pattern has no * |
| FnMatch.FinalStar | src/vlog_is_on.cc:73-98 | a pattern without a star, then a star: it matches exactly the strings that begin as the pattern says, unless a star stands right behind that beginning and something behind the star |
| FnMatch.StarTakesStar | src/vlog_is_on.cc:73-98 | for all patterns and strings, a star in front of both matches if what is behind them does |
| FnMatch.LiteralMatch | src/vlog_is_on.cc:73-98 | a pattern without wildcards matches itself only |
| FnMatch.MatchReflexive | src/vlog_is_on.cc:73-98 | every string matches itself as a pattern |
| VModuleFlag.FlagRoundTrip | src/vlog_is_on.cc:139-157 | a printed list of (pattern without =, level) is parsed back entry by entry, in order |
| VModuleFlag.BadSegmentSkipped | src/vlog_is_on.cc:139-157 | a segment in which no digit stands behind the spaces and at most one sign of its level contributes nothing and does not disturb what follows |
| VModuleFlag.NoLevel | src/vlog_is_on.cc:142 | a level is no number exactly if no digit stands behind its spaces and at most one sign |
| VModuleFlag.LevelRead | src/vlog_is_on.cc:142 | else it is the value of the run of digits there, negative exactly behind a minus |
| VModuleFlag.ScanPrinted | src/vlog_is_on.cc:142 | a printed level is read back whatever non-digit follows |
| VlogSpec.BaseName | src/vlog_is_on.cc:234-250 | the base name of a file does not depend on its directory, its extension or a trailing -inl |
| VlogSpec.First | src/vlog_is_on.cc:255-265 | the index found is that of the first entry whose pattern matches |
| VlogSpec.WasAfterSet | src/vlog_is_on.cc:166-193 | what a lookup finds after SetVLOGLevel, for every name |
| VlogSpec.SetTakesEffect | src/googlelog/vlog_is_on.h.in:26-34 | SetVLOGLevel decides the level of a module given by name exactly if no other pattern comes first, or that one has the level already |
| VlogSpec.SetLeavesOthers | src/vlog_is_on.cc:166-193 | a module the pattern does not match keeps its level |
| VlogSpec.SetUndone | src/googlelog/vlog_is_on.h.in:26-34 | setting a pattern back to the returned level restores what a lookup of a name finds exactly if the setting does not reach the name or the name had that level |
| VlogSpec.SetUndoneEverywhere | src/googlelog/vlog_is_on.h.in:26-34 | that is every name, if the pattern has no wildcards or is itself the first entry that matches it |
| VlogSpec.PatternsOnlyGrow | src/vlog_is_on.cc:104-117 | over any run the overrides only grow at the front |
| Vlog.ParseFlag | src/vlog_is_on.cc:130-157 | the parsing loop builds a null-terminated list of new nodes that hold the entries of the flag, in order |
| Vlog.Vlog.VLOG2Initializer | src/vlog_is_on.cc:130-163 | the entries of the flag are put in front of the previous list, whose nodes stay in place behind new ones |
| Vlog.Vlog.SetExisting | src/vlog_is_on.cc:172-187 | returns the level of the first entry that matches the pattern, else FLAGS_v, sets the entries for the very pattern and no other |
| Vlog.Vlog.Redirect | src/vlog_is_on.cc:195-212 | the pointer-to-pointer loop leads exactly the cached sites the pattern matches to the new node, and keeps the others in order |
| Vlog.Vlog.SetVLOGLevel | src/vlog_is_on.cc:166-215 | returns the earlier level; the new overrides are those of the cache-free machine; the old nodes stay behind at most one new one; a site that followed the lookup still does exactly unless it is on an entry and a new pattern overtakes it |
| Vlog.Vlog.InitVLOG3 | src/vlog_is_on.cc:219-291 | answers what an uncached lookup of the base name finds; caches that pointer only if the flag had been parsed on entry, and then lists a site led to the default, once |
| Vlog.Vlog.VlogIsOn | src/googlelog/vlog_is_on.h.in:13-19 | the fast path answers by the cached pointer; whenever the site follows the lookup the answer is that of an uncached lookup, and all sites that followed it still do |
| Vlog.Vlog.Reachable | src/vlog_is_on.cc:104-130 | a cached pointer leads to FLAGS_v iff the site is listed iff no entry matches its base name, else to an entry that does; neither list meets a node twice; nothing is listed before the flag is parsed |
| Vlog.Run | src/vlog_is_on.cc:166-291 | over any run of VLOG_IS_ON, SetVLOGLevel and writes to FLAGS_v in which no new pattern matches a site that is on an entry and was reached with the flag parsed, every answer is that of the uncached machine |
| VlogSpec.LiteralIsHarmless | src/vlog_is_on.cc:73-98 | a pattern without wildcards is never such a new pattern |
| Vlog.Vlog.LeaveBehind | src/vlog_is_on.cc:188-212 | the condition on patterns is needed: a pattern that matches a site on an entry, but no entry yet, makes some answer of that site differ from the lookup |
| LogCounters.FirstNBounded | src/googlelog/logging.h.in:1111-1119 | under every interleaving of any number of threads at most n messages are logged and the counter exceeds n by at most the number of threads |
| LogCounters.FirstNLost | src/googlelog/logging.h.in:1111-1119 | with no thread inside the statement, no message is missing while the count is at most n, and fewer than there are threads afterwards |
| LogCounters.AsManyLost | src/googlelog/logging.h.in:1111-1119 | for every n and number of threads there is an interleaving that leaves the count above n and nobody inside, and has logged n - threads + 1 messages, or none |
| LogCounters.NeverAgain | src/googlelog/logging.h.in:1111-1119 | once the count is above n with nobody about to log, nothing is logged whatever follows |
| LogCounters.AllCertainIffAlone | src/googlelog/logging.h.in:1111-1119 | all n messages are certain under every interleaving exactly if there is one thread |
| LogCounters.OneOfEveryN | src/googlelog/logging.h.in:1078-1084 | after k executions LOG_EVERY_N has fired k / n times, rounded up |
| LogCounters.FiresNext | src/googlelog/logging.h.in:1078-1098 | execution k fires exactly if the number of those before it is a multiple of n |
| LogCounters.EveryN.LogEveryN | src/googlelog/logging.h.in:1078-1087 | execution k logs exactly if k mod n = 1 mod n |
| LogCounters.EveryN.LogIfEveryNAtomic | src/googlelog/logging.h.in:1089-1098 | logs exactly the condition-true executions whose index j has j mod n = 1 mod n |
| LogCounters.EveryN.LogIfEveryNWindows | src/googlelog/logging.h.in:1134-1144 | the same, by subtracting n when above n |
| LogCounters.EveryN.LogIfEveryNSync | src/googlelog/logging.h.in:1178-1187 | the same, by subtracting n when at least n |
| LogCounters.SameOnEveryPlatform | src/googlelog/logging.h.in:1089-1187 | for every n and every sequence of conditions the three versions log at exactly the same executions |
| SignalGate.StepSafe | src/signalhandler.cc:289-357 | every signal and every step of any invocation keeps: at most one invocation has passed, the pointer was stored once and leads to it, nobody else dumps, the default handler is invoked on its thread only, and an invocation that waits has invoked it exactly if it is on that thread |
| SignalGate.GateIsSafe | src/signalhandler.cc:271-357 | the same over every run, with signals arriving at any thread at any time, nested ones included |
| SignalGate.PointerStays | src/signalhandler.cc:271-299 | once stored the pointer never changes |
| SignalGate.OneDumper | src/signalhandler.cc:292-357 | over every run no two invocations pass; all dumps come from one invocation and every default-handler call from its thread; an invocation that waits has invoked the default handler exactly if it is on that thread |
| SignalGate.FirstPasses | src/signalhandler.cc:292-299 | where the pointer is not stored yet, the first three steps of an invocation take it past the gate |
| SignalGate.OthersWait | src/signalhandler.cc:308-317 | where it is stored for another thread, an invocation comes to wait after three steps and stays there, without the default handler |
| SignalGate.ReentryEnds | src/signalhandler.cc:300-307 | where it is stored for its own thread, an invocation on top of it invokes the default handler in three steps, and waits if the process lives on |
| SignalGate.DumperDumps | src/signalhandler.cc:319-357 | every step of the dumper that does not end the process adds to the dump |
| SignalGate.SignalWhileDumping | src/signalhandler.cc:271-307 | after every run in which the dump has begun, a signal on the dumper thread and three steps of it invoke the default handler |
| SignalGate.NaiveLetsTwoThrough | src/utilities.h:181-187 | with the fallback compare-and-swap there is a run in which two invocations on different threads pass |
| Formatter.MinimalFormatter.AppendString | src/signalhandler.cc:103-110 | appends the string, or as much of its start as fits, and nothing behind it |
| Formatter.MinimalFormatter.AppendUint64 | src/signalhandler.cc:114-128 | appends the digits of the number, or as many of its last ones as fit, and nothing behind them |
| Formatter.Reverse | src/signalhandler.cc:126 | std::reverse on a stretch of the buffer |
| Formatter.DigitsDecode | src/signalhandler.cc:112-128 | the digits decode to the number and do not start with a zero unless it is zero |
| Formatter.LastDigitsDecode | src/signalhandler.cc:114-128 | the last r digits decode to the number modulo the r-th power of the radix |
| Formatter.NumberWritten | src/signalhandler.cc:114-128 | read back, what is written is the number if all its digits fit, else the number modulo radix to the power of the room |
| Formatter.FilledUp | src/signalhandler.cc:91-128 | over any sequence of calls as much is written as there is room for, and everything if everything fits |
| Formatter.StartOrEndWritten | src/signalhandler.cc:103-128 | of a string that does not fit the start is written, of a number the end |
| Formatter.Format | src/signalhandler.cc:91-128 | any sequence of calls leaves its output at the start of the buffer and the rest of the buffer unchanged |

## Left out

- Demangler.State.ParseMangledName, Demangler.State.ParseEncoding, Demangler.State.ParseName, Demangler.State.ParseUnscopedName, Demangler.State.ParseUnscopedTemplateName, Demangler.State.ParseNestedName, Demangler.State.ParsePrefix, Demangler.State.ParseUnqualifiedName, Demangler.State.ParseAbiTags, Demangler.State.ParseOperatorName, Demangler.State.ParseSpecialName, Demangler.State.ParseType, Demangler.State.ParseFunctionType, Demangler.State.ParseBareFunctionType, Demangler.State.ParseClassEnumType, Demangler.State.ParseArrayType, Demangler.State.ParsePointerToMemberType, Demangler.State.ParseTemplateArgs, Demangler.State.ParseTemplateArg, Demangler.State.ParseExpression, Demangler.State.ParseExprPrimary, Demangler.State.ParseLocalName, Demangler.State.ParseTopLevelMangledName, Demangler.State.OneOrMore, Demangler.State.ZeroOrMore, Demangler.Demangle: exclude inputs on which a source name they consume leads back to its own start or before it; the source parses on from that place, and may do so for ever (EndlessRuns.NeverEnds).
- EndlessRuns.TurnReturns: does not follow names inside the type of a cast operator backwards.
- Demangler.State.ParseAbiTag, Demangler.State.ParseLocalSourceName, Demangler.State.ParseBuiltinType, Demangler.State.ParseSourceName, Demangler.State.ParseIdentifier: exclude a length that leads in front of the whole mangled name; the source reads what lies in front of the string.
- Demangler.State.ParseNumber: does not model the width of `int`; a number that overflows it is not part of the model.
- Demangler.State.EnterNestedName: the nesting level is an unbounded integer, not a `short`.
- Outcomes.ThreeBytesToSpare: says nothing about the last three bytes of a buffer that has fewer than three to spare behind the text; a separator dropped in an abandoned alternative may be cancelled there.
- Outcomes.TooSmallRefused: leaves open which answer is given in the two sizes between, where text and NUL fit and three bytes are not to spare; that depends on what abandoned alternatives drop.
- Outcomes.DemangledText: does not say what the text is followed by when a name prints nothing at its end (an identifier of length zero, an empty nested name); termination with a NUL is proved for the round trip, and for every trace that ends by printing.
- Output.Append: what lies behind the end of the buffer is read as NUL; that can only happen after an overflow, when the previous name is remembered longer than it was written.
- RoundTrip.RoundTrip: covers the trees that `Abi.ValidEncoding` admits. It leaves out what the demangler reads in another way than it was meant: an operation as an operand that is not the last one, the size of a type that could be read as an expression (builtin types are in), a pack opened with I behind a type, an integer of type `__int128` or of a class as a template argument, a number in front of a digit, a type or an external name without underscore where an underscore or anything but an E follows, and an operator whose code starts with r at the start of a nested name. Identifiers consist of letters, digits, underscores, dots and dollar signs.
- Acceptance.EncodingRead: is about what is encoded; which other strings are accepted is said by Grammar alone.
- Acceptance.ExprRead: operators of vendors are not among the operators of expressions.
- Acceptance.PathRead: a constructor or destructor needs a name printed before it in the same nested name.
- VModuleFlag.ScanPrinted: levels are unbounded; what `sscanf` does with a number that does not fit an `int` is left out.
- Vlog.Vlog.InitVLOG3: the default of a site is always `FLAGS_v`, and the file name of a site is fixed, as the macro has it.
- LogCounters.FirstNBounded: steps are sequentially consistent; relaxed memory orders and counters that wrap around are left out.
- LogCounters.EveryN.LogEveryN: one thread; how often `LOG_EVERY_N` fires under concurrency is left out.
- SignalGate.GateIsSafe: what is dumped, `sigaction`, `kill` and the sleeping loop are abstracted to steps; the default handler invoked at the end of the dump ends the process, the one invoked on re-entry may or may not.
- Locks and thread safety annotations: each function that holds `vmodule_lock` is one step.
- `RAW_VLOG` in `SetVLOGLevel` and saving `errno` in `InitVLOG3__`: no effect on the modelled state.
- `AppendHexWithPadding`, `LOG_EVERY_T`, `PLOG_EVERY_N`: timing, overlapping copies, or the same counter once more.
- Demangling on Windows, the symbolizer, stack unwinding: foreign calls.
- The logging engine: `src/logging.cc` stops after its flag definitions and is not part of this model.
