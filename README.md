# source-remap, modelled in Dafny

source-remap is a command-line tool, written in Kotlin, that renames the symbols of Java and Kotlin sources by following a mappings file. This project models the self-contained logic around its renaming engine and proves properties of it:

- **Reading a mappings file** (`readMappings`, main.kt). A mapping-io visitor keeps a target-namespace index and four cursors: the class, field, method and parameter entry being read. Each callback moves the cursors, get-or-creates entries of a Lorenz `MappingSet`, or stores a target name through a cursor. The `--remap INPUT OUTPUT` arguments become an input-to-output map.
- **The desynthesizing class transformer** (transformers.kt). It clears `ACC_SYNTHETIC` (0x1000) on every access word of a class file. For a method, it moves the original synthetic bit into `ACC_STRICT` (0x0800).
- **The transformer pipeline** (ClasspathTransformer.kt, ClasspathTransformerManager.kt). Transformers are immutable records. `transform` combines their compute flags with OR and their constant-pool permission with AND. It builds the visitor chain over the reversed list, skipping transformers that contribute nothing, and returns the input unchanged when there is nothing to do.
- **The transformed virtual file system** (TransformedVirtualFileSystem.kt, TransformedVirtualFile.kt).
  - Paths containing `!/` are looked up in the jar file system, all other paths in the local one.
  - Files that are found are wrapped.
  - A wrapper hands out the bytes of a `.class` file only after transforming them, at most once per wrapper. All other files pass through unchanged.
- **PSI helpers** (PsiUtils.kt):
  - binary names of nested classes (`Outer$Inner`, as in section 13.1 of The Java Language Specification);
  - following constant references to string literals in annotation values;
  - a counter that stops early.

Files:

| file | module | what |
|---|---|---|
| common.dfy | `Common` | `Option`, `Result`, bytes, suffix and substring tests |
| class_files.dfy | `ClassFiles` | an abstract class file: the declarations that carry an access word |
| classpath_transformer.dfy | `ClasspathTransformers` | transformer record, visitor chains, `transform`, the manager object |
| desynthesize.dfy | `Desynthesize` | the access-flag rules and the desynthesizing transformer |
| transformed_vfs.dfy | `TransformedVfs` | the virtual file system and the caching file wrapper |
| mapping_sets.dfy | `MappingSets` | the parts of a Lorenz `MappingSet` that reading builds |
| read_mappings.dfy | `ReadMappings` | the mapping visitor: pure callback semantics, the visitor class, the reading loop |
| remap_arguments.dfy | `RemapArguments` | the `--remap` input filter |
| psi_utils.dfy | `PsiUtils` | `dollarQualifiedName`, `resolvedLiteralValue(s)`, `moreThan` |

How the model is built:

- **Code that changes state** is imperative Dafny: a class with `modifies` clauses and loops with invariants. This covers the visitor object, both `transform` loops, the mutable transformer lists, the wrapper's cache field, the `resolvedLiteralValue` while loop and the `moreThan` for loop.
- **Each imperative member is tied to a pure function** in its `ensures`: `Transformed`, the `On...` callback functions, `LiteralResolution`, or `Count`. The lemmas are stated about those functions.
- **ASM's `ClassReader` and `ClassWriter`** are the parameter `Asm`: a function that parses bytes and a function that writes what the writer received. A class visitor chain is a stack of `Layer`s ending in the `Writer`. Driving a chain hands the class file through every layer down to the writer.
- **IntelliJ's jar and local file systems** are functions from paths to files.
- **File existence** for `--remap` is a function from paths to `bool`.
- **A thrown exception** is a `Failure` value carrying the values its message mentions. A name read through `deobfuscatedName` is the entry's target name, or its source name while none has been set, because Lorenz creates each entry with its source name as its target name.
- **ASM rejecting its input.** `Asm.read` returns `None` where the `ClassReader` constructor throws. `transform` then fails with `MalformedClass`, and the wrapper's cache stays empty.
- **`TransformedVirtualFileSystem.transform`** is a copy of `ClasspathTransformerManager.transform`. Both are modelled by the one method `TransformBytes`, which each object's `Transform` calls with its own transformer list.
- **The `refresh` methods** of the file system and of the wrapper do nothing. They appear as methods without a `modifies` clause.

## Model

| member | source | states |
|---|---|---|
| ClasspathTransformers.NewTransformer | src/main/kotlin/com/replaymod/gradle/remap/classpath/ClasspathTransformer.kt:5-9 | a transformer built with the defaults has compute flags 0, may copy the constant pool, and keeps the factory it was given |
| ClasspathTransformers.Transformed | src/main/kotlin/com/replaymod/gradle/remap/classpath/ClasspathTransformerManager.kt:10-35 | an empty list returns the input; `transform` fails exactly when some transformer is registered and the reader rejects the input |
| ClasspathTransformers.TransformBytes | src/main/kotlin/com/replaymod/gradle/remap/classpath/ClasspathTransformerManager.kt:10-35 | the two accumulator loops and the reversed chain loop compute exactly `Transformed`, including the failure when the reader rejects the input; an empty list returns the input |
| ClasspathTransformers.CombinedFlagsIncludesEach | src/main/kotlin/com/replaymod/gradle/remap/classpath/ClasspathTransformerManager.kt:15-20 | every transformer's compute flags are contained in the combined flags |
| ClasspathTransformers.CombinedFlagsIsLeast | src/main/kotlin/com/replaymod/gradle/remap/classpath/ClasspathTransformerManager.kt:15-20 | the combined flags set no bit that no transformer asked for, so they are the bitwise OR of all of them |
| ClasspathTransformers.CopyConstantPoolIsAll | src/main/kotlin/com/replaymod/gradle/remap/classpath/ClasspathTransformerManager.kt:16-23 | the writer copies the reader's constant pool if and only if every transformer allows it |
| ClasspathTransformers.ChainSkipsAbsent | src/main/kotlin/com/replaymod/gradle/remap/classpath/ClasspathTransformerManager.kt:25-28 | a transformer whose factory returns null leaves the chain as if it were not in the list |
| ClasspathTransformers.ChainAppliesInListOrder | src/main/kotlin/com/replaymod/gradle/remap/classpath/ClasspathTransformerManager.kt:25-28 | because the chain is built over the reversed list, the first listed transformer is outermost and the class passes through the rewrites in list order |
| ClasspathTransformers.NoContributionKeepsWriter | src/main/kotlin/com/replaymod/gradle/remap/classpath/ClasspathTransformerManager.kt:25-29 | when no factory contributes, the chain is the writer itself |
| ClasspathTransformers.NoContributionIsIdentity | src/main/kotlin/com/replaymod/gradle/remap/classpath/ClasspathTransformerManager.kt:29-31 | when no factory contributes, `transform` returns its input unchanged, except that with a non-empty list input the reader rejects still fails, since the reader is created first |
| ClasspathTransformers.ContributionIsWritten | src/main/kotlin/com/replaymod/gradle/remap/classpath/ClasspathTransformerManager.kt:22-34 | when some factory contributes, the output is what the writer encodes after the reader drove the whole chain once, with the combined flags and constant-pool setting; input the reader rejects fails |
| ClasspathTransformers.MalformedInputFails | src/main/kotlin/com/replaymod/gradle/remap/classpath/ClasspathTransformerManager.kt:11-22 | input the reader rejects fails exactly when some transformer is registered, whether or not any contributes |
| ClasspathTransformers.SingleLayerIsWritten | src/main/kotlin/com/replaymod/gradle/remap/classpath/ClasspathTransformerManager.kt:10-35 | one transformer that always wraps its parent makes `transform` write the rewritten class with that transformer's own compute flags and constant-pool setting, or fail when the reader rejects the input |
| ClasspathTransformers.ClasspathTransformerManager.constructor | src/main/kotlin/com/replaymod/gradle/remap/classpath/ClasspathTransformerManager.kt:7-8 | the registry starts with no transformers |
| ClasspathTransformers.ClasspathTransformerManager.Register | src/main/kotlin/com/replaymod/gradle/remap/classpath/ClasspathTransformerManager.kt:8 | adding to the mutable list appends in order and keeps what was there |
| ClasspathTransformers.ClasspathTransformerManager.Transform | src/main/kotlin/com/replaymod/gradle/remap/classpath/ClasspathTransformerManager.kt:10-35 | the manager's `transform` is `Transformed` over its current list, failure included; with no transformers it returns the input |
| Desynthesize.Desynthesize | src/main/kotlin/com/replaymod/gradle/remap/classpath/transformers.kt:9 | the result has ACC_SYNTHETIC clear and agrees with the input on every other bit |
| Desynthesize.DesynthesizeIsIdempotent | src/main/kotlin/com/replaymod/gradle/remap/classpath/transformers.kt:9 | clearing the synthetic bit twice is clearing it once |
| Desynthesize.DesynthesizeMethodAccess | src/main/kotlin/com/replaymod/gradle/remap/classpath/transformers.kt:36-42 | a method's new access word never has ACC_SYNTHETIC, has ACC_STRICT exactly when the input had ACC_SYNTHETIC, and keeps every other bit |
| Desynthesize.RulesDetermineResult | src/main/kotlin/com/replaymod/gradle/remap/classpath/transformers.kt:36-42 | both the plain rule and the method rule determine the rewritten word uniquely, so the two contracts above are complete |
| Desynthesize.ClearedIsUnique | src/main/kotlin/com/replaymod/gradle/remap/classpath/transformers.kt:9 | two words that both clear ACC_SYNTHETIC of the same word and keep its other bits are equal |
| Desynthesize.MarkedStrictIsUnique | src/main/kotlin/com/replaymod/gradle/remap/classpath/transformers.kt:36-42 | two words that both follow the method rule for the same word are equal |
| Desynthesize.StrictfpIsLost | src/main/kotlin/com/replaymod/gradle/remap/classpath/transformers.kt:40-41 | a strictfp method that was not synthetic loses ACC_STRICT |
| Desynthesize.MethodRewriteIsNotIdempotent | src/main/kotlin/com/replaymod/gradle/remap/classpath/transformers.kt:36-42 | rewriting a synthetic method twice clears the ACC_STRICT mark the first rewrite set |
| Desynthesize.DesynthesizeMethod | src/main/kotlin/com/replaymod/gradle/remap/classpath/transformers.kt:36-47 | the forwarded method follows the method rule for its access word and keeps its name and descriptor |
| Desynthesize.DesynthesizeClass | src/main/kotlin/com/replaymod/gradle/remap/classpath/transformers.kt:11-63 | the forwarded class header has ACC_SYNTHETIC cleared and keeps its version, name, super class and interfaces; the module, inner classes, fields and methods keep their number |
| Desynthesize.DesynthesizeClassRewritesEveryWord | src/main/kotlin/com/replaymod/gradle/remap/classpath/transformers.kt:11-63 | the class visitor rewrites every access word by its rule: the class, module, requires, exports, opens, inner classes, fields and parameters lose ACC_SYNTHETIC, and methods follow the method rule; everything other than access words is unchanged |
| Desynthesize.NoSyntheticFlagRemains | src/main/kotlin/com/replaymod/gradle/remap/classpath/transformers.kt:19-62 | no access word of the rewritten class file has ACC_SYNTHETIC |
| Desynthesize.MethodsMarkedStrict | src/main/kotlin/com/replaymod/gradle/remap/classpath/transformers.kt:29-47 | each method keeps its name, descriptor and parameter count, is never synthetic, and is strictfp exactly when it was synthetic |
| Desynthesize.DesynthesizeTransformer | src/main/kotlin/com/replaymod/gradle/remap/classpath/transformers.kt:8-11 | the transformer has the default settings and its factory never returns null: it always wraps the parent in the desynthesizing layer |
| Desynthesize.TransformWithDesynthesize | src/main/kotlin/com/replaymod/gradle/remap/classpath/transformers.kt:8-63 | with only this transformer registered, `transform` writes the desynthesized class with compute flags 0, copying the constant pool; input the reader rejects fails |
| TransformedVfs.JarPathHasSeparator | src/main/kotlin/com/replaymod/gradle/remap/classpath/TransformedVirtualFileSystem.kt:28 | a path counts as a jar path exactly when some `!` is immediately followed by `/` |
| TransformedVfs.TransformedVirtualFileSystem.constructor | src/main/kotlin/com/replaymod/gradle/remap/classpath/TransformedVirtualFileSystem.kt:12-25 | the protocol is `remap-transformed`, the keyed extension's key equals it, and there are no transformers yet |
| TransformedVfs.TransformedVirtualFileSystem.FindFileByPath | src/main/kotlin/com/replaymod/gradle/remap/classpath/TransformedVirtualFileSystem.kt:27-32 | the result is null exactly when the jar file system (for a path with `!/`) or the local one (otherwise) finds nothing; otherwise it is a new wrapper of the found file with an empty cache |
| TransformedVfs.TransformedVirtualFileSystem.RefreshAndFindFileByPath | src/main/kotlin/com/replaymod/gradle/remap/classpath/TransformedVirtualFileSystem.kt:36 | behaves as `findFileByPath` |
| TransformedVfs.TransformedVirtualFileSystem.Register | src/main/kotlin/com/replaymod/gradle/remap/classpath/TransformedVirtualFileSystem.kt:23 | adding to the mutable list appends in order |
| TransformedVfs.TransformedVirtualFileSystem.Transform | src/main/kotlin/com/replaymod/gradle/remap/classpath/TransformedVirtualFileSystem.kt:38-63 | the duplicate `transform` computes the same `Transformed` as the manager's, over this object's list; the identity with no transformers |
| TransformedVfs.TransformedVirtualFile.constructor | src/main/kotlin/com/replaymod/gradle/remap/classpath/TransformedVirtualFile.kt:6-19 | name, path, directory flag and time stamps are the target's; the file is not writable and always valid; the cache starts empty |
| TransformedVfs.TransformedVirtualFile.GetOutputStream | src/main/kotlin/com/replaymod/gradle/remap/classpath/TransformedVirtualFile.kt:28-29 | always fails with an unsupported-operation error |
| TransformedVfs.TransformedVirtualFile.MaybeTransform | src/main/kotlin/com/replaymod/gradle/remap/classpath/TransformedVirtualFile.kt:31-38 | a filled cache is returned as is, and the hint is ignored; otherwise the hint, or else the target's contents, is transformed; a success is cached, a failure propagates and leaves the cache empty; a result is cached at most once per wrapper |
| TransformedVfs.TransformedVirtualFile.ContentsToByteArray | src/main/kotlin/com/replaymod/gradle/remap/classpath/TransformedVirtualFile.kt:40-46 | a non-`.class` file yields the target's bytes and leaves the cache alone; a `.class` file yields the cached bytes, or transforms the target's bytes, caching a success and propagating a failure |
| TransformedVfs.TransformedVirtualFile.GetLength | src/main/kotlin/com/replaymod/gradle/remap/classpath/TransformedVirtualFile.kt:52-57 | a non-`.class` file reports the target's length; a `.class` file reports the size of the cached transformed bytes, or the transformation's failure with the cache left empty |
| TransformedVfs.TransformedVirtualFile.GetInputStream | src/main/kotlin/com/replaymod/gradle/remap/classpath/TransformedVirtualFile.kt:61-66 | a non-`.class` file streams the target's bytes; a `.class` file streams the cached transformed bytes, or fails as the transformation does |
| TransformedVfs.TransformedVirtualFile.GetParent | src/main/kotlin/com/replaymod/gradle/remap/classpath/TransformedVirtualFile.kt:21 | null exactly when the target has no parent; otherwise a new wrapper of the target's parent |
| TransformedVfs.TransformedVirtualFile.GetChildren | src/main/kotlin/com/replaymod/gradle/remap/classpath/TransformedVirtualFile.kt:23-26 | as many children as the target has, in the same order, each a new wrapper of the corresponding child |
| TransformedVfs.TransformedVirtualFile.Equals | src/main/kotlin/com/replaymod/gradle/remap/classpath/TransformedVirtualFile.kt:68-70 | a wrapper equals only another wrapper, and equal wrappers have equal `hashCode`, which is the target's |
| TransformedVfs.EqualsIsConsistent | src/main/kotlin/com/replaymod/gradle/remap/classpath/TransformedVirtualFile.kt:68-70 | two wrappers are equal exactly when their targets are; equality is reflexive, symmetric and transitive, and equal wrappers have equal hashes |
| MappingSets.EmptyMappingSet | src/main/kotlin/com/replaymod/gradle/remap/main.kt:51 | a new mapping set has no classes |
| MappingSets.InsertIfAbsent | src/main/kotlin/com/replaymod/gradle/remap/main.kt:78 | get-or-create adds the key if it is missing, keeps an existing entry, and touches no other key |
| MappingSets.InsertIfAbsentIsIdempotent | src/main/kotlin/com/replaymod/gradle/remap/main.kt:78 | get-or-create twice is get-or-create once, whatever the second default |
| MappingSets.GetOrCreateClass | src/main/kotlin/com/replaymod/gradle/remap/main.kt:78 | after the call the class has an entry; an existing entry is kept; a new one has no target name and no members; every other class keeps its entry unchanged |
| MappingSets.GetOrCreateField | src/main/kotlin/com/replaymod/gradle/remap/main.kt:86-92 | the class gains the field entry if it is missing, with no target name; the class's target name, its methods and its existing fields are unchanged, and so is every other class |
| MappingSets.GetOrCreateMethod | src/main/kotlin/com/replaymod/gradle/remap/main.kt:103 | the class gains the method entry if it is missing, with no target name and no parameters; the class's target name, its fields and its existing methods are unchanged, and so is every other class |
| MappingSets.GetOrCreateParameter | src/main/kotlin/com/replaymod/gradle/remap/main.kt:110 | the method gains the parameter entry for the index if it is missing, with no target name; the method's signature, target name and existing parameters, the class's target name, fields and other methods, and every other class are unchanged |
| MappingSets.SetClassName | src/main/kotlin/com/replaymod/gradle/remap/main.kt:118 | only the class entry's target name changes |
| MappingSets.SetFieldName | src/main/kotlin/com/replaymod/gradle/remap/main.kt:120 | only that field entry's target name changes; other classes are untouched |
| MappingSets.SetMethodName | src/main/kotlin/com/replaymod/gradle/remap/main.kt:122 | only that method entry's target name changes; other classes are untouched |
| MappingSets.SetParameterName | src/main/kotlin/com/replaymod/gradle/remap/main.kt:124 | only that parameter entry's target name changes; the class's fields, its other methods and other classes are untouched |
| ReadMappings.InitialState | src/main/kotlin/com/replaymod/gradle/remap/main.kt:51-58 | the visitor starts with target index 0, an empty result and null cursors, which satisfies the cursor invariant |
| ReadMappings.ReportedName | src/main/kotlin/com/replaymod/gradle/remap/main.kt:100 | a name read through `deobfuscatedName` is the target name once one is set, and the source name before |
| ReadMappings.NoSourceNameError | src/main/kotlin/com/replaymod/gradle/remap/main.kt:115-128 | the missing-cursor error of `visitDstName` carries the target name, plus the current class's name for a field or method, plus the current class's and method's names for a parameter |
| ReadMappings.IndexOf | src/main/kotlin/com/replaymod/gradle/remap/main.kt:71 | `indexOf` returns the first position of the element, or -1 exactly when it is absent |
| ReadMappings.OnNamespaces | src/main/kotlin/com/replaymod/gradle/remap/main.kt:62-75 | `visitNamespaces` changes nothing but the target index |
| ReadMappings.OnClass | src/main/kotlin/com/replaymod/gradle/remap/main.kt:77-83 | `visitClass` makes the class current, ensures it has an entry, loses no entry, and clears the field, method and parameter cursors |
| ReadMappings.OnField | src/main/kotlin/com/replaymod/gradle/remap/main.kt:85-96 | `visitField` keeps the cursor invariant and loses no entry |
| ReadMappings.OnMethod | src/main/kotlin/com/replaymod/gradle/remap/main.kt:98-107 | `visitMethod` keeps the cursor invariant and loses no entry |
| ReadMappings.OnMethodArg | src/main/kotlin/com/replaymod/gradle/remap/main.kt:109-113 | `visitMethodArg` keeps the cursor invariant and loses no entry |
| ReadMappings.OnDstName | src/main/kotlin/com/replaymod/gradle/remap/main.kt:115-131 | `visitDstName` moves no cursor, keeps the cursor invariant and loses no entry |
| ReadMappings.NamespacesWithoutTarget | src/main/kotlin/com/replaymod/gradle/remap/main.kt:63-69 | with no requested target, the header succeeds exactly when it lists one destination namespace, and the target index is not touched |
| ReadMappings.NamespacesWithTarget | src/main/kotlin/com/replaymod/gradle/remap/main.kt:71-74 | with a requested target, success exactly when it is listed; then the index is its first position; otherwise a not-found error, with the index left at -1 |
| ReadMappings.ClassVisitIsIdempotent | src/main/kotlin/com/replaymod/gradle/remap/main.kt:77-83 | visiting a class twice equals visiting it once, and revisiting finds the same entry |
| ReadMappings.EntryVisitsKeepTargetNames | src/main/kotlin/com/replaymod/gradle/remap/main.kt:77-96 | visiting a class or a field keeps every class entry's target name and every existing field entry |
| ReadMappings.MemberVisitsKeepTargetNames | src/main/kotlin/com/replaymod/gradle/remap/main.kt:98-107 | visiting a method keeps every class's target name and every existing method entry |
| ReadMappings.ParameterVisitsKeepTargetNames | src/main/kotlin/com/replaymod/gradle/remap/main.kt:109-113 | visiting a parameter keeps every class's target name and every method's target name |
| ReadMappings.FieldNeedsOwner | src/main/kotlin/com/replaymod/gradle/remap/main.kt:85-96 | fails, changing nothing, exactly when no class is current; otherwise keys the field by name plus the descriptor only when given, and clears the method and parameter cursors |
| ReadMappings.MethodNeedsDescriptorAndOwner | src/main/kotlin/com/replaymod/gradle/remap/main.kt:98-107 | a missing source descriptor fails before any cursor changes, reporting the current class's name and the method's name; success exactly when there is a descriptor and a current class; success clears the field and parameter cursors |
| ReadMappings.MethodArgKeyedByLvIndex | src/main/kotlin/com/replaymod/gradle/remap/main.kt:109-113 | parameters are keyed by local-variable index, and the argument position and name make no difference; fails exactly when no method is current |
| ReadMappings.DstNameIgnored | src/main/kotlin/com/replaymod/gradle/remap/main.kt:115-129 | a name for another namespace, or for a local variable, is ignored |
| ReadMappings.DstNameSetsOnlyTarget | src/main/kotlin/com/replaymod/gradle/remap/main.kt:115-128 | a name for the target namespace fails exactly when the cursor of its kind is null, with the names the message reports; otherwise it is stored in that cursor's entry, every other kind's entry keeps its name, and other classes are untouched |
| ReadMappings.OnEvent | src/main/kotlin/com/replaymod/gradle/remap/main.kt:52-139 | every callback keeps the cursor invariant and loses no entry |
| ReadMappings.Run | src/main/kotlin/com/replaymod/gradle/remap/main.kt:52-139 | a sequence of callbacks keeps the cursor invariant and loses no entry; the first exception ends the read |
| ReadMappings.MappingsRead | src/main/kotlin/com/replaymod/gradle/remap/main.kt:50-141 | a file with no callbacks reads as the empty mapping set, and a successful read has an entry for every class it visits |
| ReadMappings.VisitedClassesArePresent | src/main/kotlin/com/replaymod/gradle/remap/main.kt:77-83 | all classes a successful read visits have entries in its result |
| ReadMappings.RunKeepsVisitedClasses | src/main/kotlin/com/replaymod/gradle/remap/main.kt:77-83 | every class that a successful read visits has an entry in the result |
| ReadMappings.RunWithoutTargetKeepsIndexZero | src/main/kotlin/com/replaymod/gradle/remap/main.kt:53-69 | without a requested target namespace, the target index stays 0 for the whole read |
| ReadMappings.AmbiguousHeaderFails | src/main/kotlin/com/replaymod/gradle/remap/main.kt:63-68 | a file whose header offers several destination namespaces, read with no requested target, fails with the ambiguity error |
| ReadMappings.MappingsVisitor.constructor | src/main/kotlin/com/replaymod/gradle/remap/main.kt:52-58 | the visitor object starts in the initial state |
| ReadMappings.MappingsVisitor.GetFlags | src/main/kotlin/com/replaymod/gradle/remap/main.kt:60 | the visitor asks only for source method descriptors |
| ReadMappings.MappingsVisitor.VisitNamespaces | src/main/kotlin/com/replaymod/gradle/remap/main.kt:62-75 | the method's outcome and new fields are those of `OnNamespaces` |
| ReadMappings.MappingsVisitor.VisitClass | src/main/kotlin/com/replaymod/gradle/remap/main.kt:77-83 | returns true; the new fields are those of `OnClass` |
| ReadMappings.MappingsVisitor.VisitField | src/main/kotlin/com/replaymod/gradle/remap/main.kt:85-96 | the method's outcome and new fields are those of `OnField` |
| ReadMappings.MappingsVisitor.VisitMethod | src/main/kotlin/com/replaymod/gradle/remap/main.kt:98-107 | the method's outcome and new fields are those of `OnMethod` |
| ReadMappings.MappingsVisitor.VisitMethodArg | src/main/kotlin/com/replaymod/gradle/remap/main.kt:109-113 | the method's outcome and new fields are those of `OnMethodArg` |
| ReadMappings.MappingsVisitor.VisitDstName | src/main/kotlin/com/replaymod/gradle/remap/main.kt:115-131 | the method's outcome and new fields are those of `OnDstName` |
| ReadMappings.MappingsVisitor.VisitMethodVar | src/main/kotlin/com/replaymod/gradle/remap/main.kt:133-135 | always returns false |
| ReadMappings.Dispatch | src/main/kotlin/com/replaymod/gradle/remap/main.kt:52-139 | handing a callback to the visitor object has the effect `OnEvent` describes, including its failure |
| ReadMappings.ReadMappingsFile | src/main/kotlin/com/replaymod/gradle/remap/main.kt:50-141 | `readMappings` returns the mapping set that `Run` builds from the callbacks, or the first exception |
| RemapArguments.RemapTargets | src/main/kotlin/com/replaymod/gradle/remap/main.kt:198 | only inputs that exist are keys, and every existing input of some pair is one |
| RemapArguments.RemapTargetsKeys | src/main/kotlin/com/replaymod/gradle/remap/main.kt:198 | an input is in the map exactly when it exists and some `--remap` pair names it |
| RemapArguments.LastPairWins | src/main/kotlin/com/replaymod/gradle/remap/main.kt:198 | for an input given several times, the output of its last pair is kept |
| RemapArguments.RemapTargetsComeFromPairs | src/main/kotlin/com/replaymod/gradle/remap/main.kt:198 | every input-output entry of the map is one of the given pairs |
| PsiUtils.DollarQualifiedName | src/main/kotlin/com/replaymod/gradle/remap/PsiUtils.kt:10-15 | a top-level class gets its qualified name, and any other answer is a nested class's name built from its simple name |
| PsiUtils.TopLevelName | src/main/kotlin/com/replaymod/gradle/remap/PsiUtils.kt:11 | a class with no enclosing class gets its plain qualified name |
| PsiUtils.BinaryNameOfChain | src/main/kotlin/com/replaymod/gradle/remap/PsiUtils.kt:10-15 | when every nested class on the chain has a simple name, the binary name is the outermost class's qualified name followed by `$` and each simple name down the chain |
| PsiUtils.NamelessFallsBack | src/main/kotlin/com/replaymod/gradle/remap/PsiUtils.kt:12-13 | a nested class with no simple name, or whose enclosing class has no binary name, falls back to its qualified name |
| PsiUtils.BinaryNameExtendsParent | src/main/kotlin/com/replaymod/gradle/remap/PsiUtils.kt:10-15 | a binary name that is not the fallback is the enclosing class's binary name, `$`, and the class's simple name |
| PsiUtils.UnquoteQuoted | src/main/kotlin/com/replaymod/gradle/remap/PsiUtils.kt:30 | unquoting text wrapped in matching `"` or `'` gives back the text |
| PsiUtils.LiteralResolution | src/main/kotlin/com/replaymod/gradle/remap/PsiUtils.kt:20-31 | a found value is a literal element of the program, paired with its unquoted text |
| PsiUtils.ResolvedLiteralValue | src/main/kotlin/com/replaymod/gradle/remap/PsiUtils.kt:20-31 | the while loop that follows references, taking a field's initializer, computes `LiteralResolution` |
| PsiUtils.FollowIsFuelIndependent | src/main/kotlin/com/replaymod/gradle/remap/PsiUtils.kt:22-28 | once the loop stops within some fuel, more fuel gives the same answer, so fuel only bounds the loop |
| PsiUtils.UnresolvedReferenceIsNotFound | src/main/kotlin/com/replaymod/gradle/remap/PsiUtils.kt:23-29 | a reference that resolves to nothing yields no literal |
| PsiUtils.RankedChainsTerminate | src/main/kotlin/com/replaymod/gradle/remap/PsiUtils.kt:22-28 | on acyclic reference chains, witnessed by a decreasing rank, the loop stops |
| PsiUtils.MutualConstantsDiverge | src/main/kotlin/com/replaymod/gradle/remap/PsiUtils.kt:22-28 | two constants initialized with references to each other make the loop run forever: no fuel is enough |
| PsiUtils.SingleValue | src/main/kotlin/com/replaymod/gradle/remap/PsiUtils.kt:36 | a value that is not an array initializer yields at most one literal: its own one when it resolves |
| PsiUtils.ResolvedLiteralValues | src/main/kotlin/com/replaymod/gradle/remap/PsiUtils.kt:33-37 | an array initializer yields at most one literal per element, any other value at most one |
| PsiUtils.ResolveAll | src/main/kotlin/com/replaymod/gradle/remap/PsiUtils.kt:35 | no elements give no literals, and there are never more literals than elements |
| PsiUtils.ResolveAllKeepsResolvable | src/main/kotlin/com/replaymod/gradle/remap/PsiUtils.kt:35 | for an array initializer, the results are exactly the literals its elements resolve to, and there are no more results than elements |
| PsiUtils.ResolveAllInOrder | src/main/kotlin/com/replaymod/gradle/remap/PsiUtils.kt:35 | when every element resolves, the results follow the elements one to one, in order |
| PsiUtils.ResolveAllAppend | src/main/kotlin/com/replaymod/gradle/remap/PsiUtils.kt:35 | the literals of a concatenation are those of the first part followed by those of the second, so the survivors keep their elements' order whatever is dropped; it runs out of fuel exactly when one part does |
| PsiUtils.SingleElement | src/main/kotlin/com/replaymod/gradle/remap/PsiUtils.kt:35 | one element contributes its literal when it resolves, nothing when it does not, and fails when its loop runs out of fuel |
| PsiUtils.MoreThan | src/main/kotlin/com/replaymod/gradle/remap/PsiUtils.kt:39-48 | a negative `n` is an illegal argument; otherwise the answer is whether more than `n` elements satisfy the predicate; a true answer is given at the element that makes the count `n + 1`, and the remaining elements are never examined |

## Left out

- **ASM byte encoding.** ClassReader and ClassWriter are the abstract parameter `Asm`. Constant pools, code, signatures and attributes without an access word are not in the class-file model.
  - Which inputs ClassReader rejects is a property of `Asm.read`. The model knows only that a rejection aborts `transform`.
  - Exceptions thrown by ClassWriter or by a transformer's own visitor while the class is driven are not modelled. `Asm.write` and every `rewrite` are total.
- **Byte array identity.** `transform` returns the `input` array itself when it changes nothing. `maybeTransform` returns the same cached array to every caller, so one caller's writes to it would be seen by the others. Bytes are values (`seq<bv8>`) here, so this sharing and aliasing are not modelled. `TransformedVfs.TransformedVirtualFile.MaybeTransform` promises equal contents, not the same array.
- **Kotlin `object` singletons.** `ClasspathTransformerManager` and `TransformedVirtualFileSystem` are classes with one instance passed around, not globals.
- **The application environment.** TransformedVirtualFileSystem's `applicationEnvironment` (a `lateinit`) is replaced by the two lookup functions given to the constructor.
- TransformedVfs.EqualsIsConsistent: compares targets by identity. IntelliJ's own `VirtualFile.equals` is not part of this model.
- **File I/O errors.** Reading a file's contents takes the bytes the target holds. I/O errors are not modelled.
- TransformedVfs.TransformedVirtualFile.GetInputStream: returns the bytes the stream would yield, not a stream object.
- **Reading the mappings file.** The mapping-io reader's parsing of the file formats and its I/O are not modelled.
  - The reader's callbacks are given as a sequence of events.
  - The reader skipping an element's contents when a callback returns false is not modelled. Only `visitMethodVar` returns false, and the target names that could follow it are of kind METHOD_VAR, which `visitDstName` ignores.
  - The mapping-io callbacks the visitor does not override (header, content, end, metadata) are not modelled.
- **Lorenz internals.** A class name with `$` is an inner-class entry in Lorenz. Here every class is keyed by its full obfuscated name.
  - Lorenz's lookup of a field by name alone, without a descriptor, is not modelled. Fields are keyed by the exact (name, optional descriptor) pair.
  - `MappingSet.merge` and `reverse`, and the reading of several mapping files, are not modelled.
- **Error messages.** They are carried as the values they mention, not as text. The message of the missing-owner error in `visitMethod` says "field" (main.kt:104), although it is about a method.
- **Map order.** `associate` builds an insertion-ordered map. `RemapArguments.RemapTargets` is an unordered `map`, so the console listing order of inputs and outputs is not modelled.
- **Command-line parsing and the rest of `main`.** Argument parsing, `PathListArgumentType`, classpath flattening, output deletion, `runTransformer` and timing are I/O over foreign libraries.
- **The rest of PsiUtils.kt.** `PsiUtils.getSignature` and `getDescriptor` depend on IntelliJ's `ClassUtil` and are not part of this model.
- **IntelliJ's PSI.** The enclosing-class lookup `PsiTreeUtil.getParentOfType` is the `enclosing` field of `PsiClass`. Reference resolution is the `resolvesTo` entry of the element graph.
- PsiUtils.UnquoteQuoted: `StringUtil.unquoteString` is modelled as removing one pair of matching surrounding `"` or `'` characters. Its other cases are not modelled.
- PsiUtils.ResolvedLiteralValue: bounds its loop by a `fuel` argument, because the source's loop has no cycle guard and does not terminate on mutually referencing constants. Running out of fuel is the outcome `OutOfFuel`. `PsiUtils.RankedChainsTerminate` and `PsiUtils.FollowIsFuelIndependent` show that enough fuel gives the unbounded answer on acyclic chains. `PsiUtils.ResolvedLiteralValues` returns `None` when any element runs out of fuel.
- PsiUtils.MoreThan: models Kotlin's `require(n >= 0)`, which throws, as the `IllegalArgument` result. It is not a precondition.
- **The other transformers** registered elsewhere in the tool, and transformer registration order at start-up, are not part of this model.
