# GlaiKit script pipeline, modelled in Dafny

GlaiKit is a server plugin. It compiles Kotlin scripts (`.kts`), caches the
compiled form as a binary `.kit` record under `scripts/.build/`, and runs
scripts from that cache unless the source or the runtime properties have
changed. It also keeps a registry of running scripts. A script's cleanups run
when its container is released. This project models the parts of the plugin
that decide and keep count:

- **Registry** (`registry.dfy`): `GlaiScriptManager`'s map from id to
  `ScriptContainer`. The container is a class with a one-shot `release`.
  The release-all done on shutdown is also modelled.
- **kts evaluator** (`kts_evaluator.dfy`): `eval`'s decision flow. It
  covers refusing a running script, running a `.kit` file directly, trying
  the cache record, and compiling. The local `run` and the `reportResult`
  filter are included.
- **Compiler and cache record** (`compiler.dfy`, `script_file.dfy`,
  `serialization.dfy`):
  - `GlaiCompiler.compile` writes the record.
  - `GlaiScriptFile.loadFromFile` reads it with a cursor. The reader cannot
    read what the writer writes, and this is proved as a lemma.
- **Older root-package evaluator** (`legacy_evaluator.dfy`):
  - the two-object record format, and its round trip;
  - `evalFile`, `evalCacheFile` and `evalFileAndReport`;
  - the startup walk `load` over the scripts folder.
- **Script discovery and the annotation handler** (`kotlin_script.dfy`):
  `findScripts` and `findInclude` over a directory tree,
  `processAnnotations`, and the provided-properties lists.
- **Import lists** (`env.dfy`): `loadImportsFromString`,
  `loadFunctionsFromFile`, `setupGlobalImports`, and the
  `loadImportFromPlugin` parse and cache.
- **Digests** (`script_io.dfy`):
  - the chunked `File.digest` loop, over `FileInputStream` and
    `MessageDigest` classes;
  - the UTF-8 bytes `String.digest` hashes;
  - the `BigInteger(1, d).toString(16)` rendering.
- **Library semantics** (`kotlin.dfy`, `diagnostics.dfy`): the standard
  library behaviour the code relies on, with Kotlin semantics. This covers
  `substringBeforeLast`, `extension` and `split`, a `toSet()` that keeps
  first occurrences, and `ResultWithDiagnostics.onSuccess`, which puts the
  compiler's reports in front.

Three modules have methods with mutable arguments:

| module | mutable arguments |
|---|---|
| Registry | the container and the manager, which are classes |
| KtsEvaluator | a `FileSystem` of cache records, a message `Receiver` and a `Future` |
| LegacyEvaluator | a `FileSystem`, two `Sink`s and a `Future` |

Each such method is proved against a specification function: `EvalSpec`,
`EvalFileSpec`, `RunAll` over `LoadOrder`, and so on. The properties are lemmas
about those functions.

Several behaviours a reader might expect do not hold in the code. The
model follows the code:

- No cache record carries a format version. The leading Int is only a count.
- A property-digest mismatch on a cache record still recompiles.
- A cache file that cannot be read raises an exception out of `eval` and
  `evalFile`.
- The record the kts compiler writes cannot be loaded by the kts reader.
- `findInclude` on a directory ignores the requested name.
- One throwing cleanup stops the remaining cleanups.
- The startup walk checks only directory names for a leading '.'.

## Model

| member | source | states |
|---|---|---|
| Kotlin.IndexOf | src/main/kotlin/ink/ptms/glaikit/GlaiEnv.kt:72 | The first index of the character, with none before it. -1 exactly when it does not occur. |
| Kotlin.LastIndexOf | src/main/kotlin/ink/ptms/glaikit/kts/GlaiKotlinScript.kt:151 | The last index of the character, with none after it. -1 exactly when it does not occur. |
| Kotlin.SplitAtLast | src/main/kotlin/ink/ptms/glaikit/GlaiEnv.kt:61 | When the character occurs, substringBeforeLast, the character and substringAfterLast rebuild the string. The part after holds no such character. |
| Kotlin.SplitAtLastAbsent | src/main/kotlin/ink/ptms/glaikit/GlaiEnv.kt:61 | Without the character, substringBeforeLast is the whole string and substringAfterLast the default. |
| Kotlin.IndexOfString | src/main/kotlin/ink/ptms/glaikit/GlaiEnv.kt:78 | The first occurrence of a substring at or after the start index, or -1 when there is none from there. |
| Kotlin.SubstringBefore | src/main/kotlin/ink/ptms/glaikit/GlaiEnv.kt:78 | The whole string without the delimiter. Otherwise the prefix that the first delimiter follows, with no earlier occurrence. |
| Kotlin.Split | src/main/kotlin/ink/ptms/glaikit/GlaiEnv.kt:72 | At least one part, and no part holds the delimiter. A string without it is one part. |
| Kotlin.SplitCons | src/main/kotlin/ink/ptms/glaikit/GlaiEnv.kt:72 | A delimiter-free head followed by the delimiter splits into that head, then the split of the rest. |
| Kotlin.JoinSplit | src/main/kotlin/ink/ptms/glaikit/GlaiEnv.kt:72 | Joining the parts of a split with the delimiter gives back the string. |
| Kotlin.Filter | src/main/kotlin/ink/ptms/glaikit/GlaiEnv.kt:99 | Exactly the elements that pass, as a subsequence of the input. |
| Kotlin.FilterCount | src/main/kotlin/ink/ptms/glaikit/GlaiEnv.kt:99 | Every passing element appears in the result as many times as in the input, and a failing one not at all. |
| Kotlin.FilterAppend | src/main/kotlin/ink/ptms/glaikit/kts/GlaiEvaluator.kt:59 | Filtering a list with one more element adds that element at the end exactly when it passes. |
| Kotlin.Map | src/main/kotlin/ink/ptms/glaikit/GlaiEnv.kt:61 | Same length, with the function applied at every index. |
| Kotlin.Distinct | src/main/kotlin/ink/ptms/glaikit/GlaiEnv.kt:61 | `toSet()` in iteration order: the same elements, none twice. |
| Kotlin.DistinctOrder | src/main/kotlin/ink/ptms/glaikit/GlaiEnv.kt:61 | First occurrences keep their relative order after `toSet()`. |
| Kotlin.NameParts | src/main/kotlin/ink/ptms/glaikit/kts/GlaiKotlinScript.kt:151 | nameWithoutExtension, '.' and extension rebuild a dotted name. An undotted name is its own base and has extension "". |
| Diagnostics.AboveDebug | src/main/kotlin/ink/ptms/glaikit/kts/GlaiEvaluator.kt:59 | `severity > DEBUG` holds for every severity except DEBUG. |
| Diagnostics.AsDiagnostic | src/main/kotlin/ink/ptms/glaikit/kts/GlaiKotlinScript.kt:127 | The exception's diagnostic is an ERROR at the script's path, carries the exception, and shows its message or else its text. |
| Diagnostics.Prepend | src/main/kotlin/ink/ptms/glaikit/kts/GlaiCompiler.kt:26-42 | The second result's kind and value are kept, with the given reports put in front of its own. |
| Diagnostics.OnSuccess | src/main/kotlin/ink/ptms/glaikit/kts/GlaiCompiler.kt:26-42 | A failure passes through with its reports. A success runs the body, and its reports go in front of the body's. |
| Diagnostics.OnSuccessTwice | src/main/kotlin/ink/ptms/glaikit/kts/GlaiCompiler.kt:26-42 | Two chained onSuccess stages accumulate both stages' reports in front of the last result. |
| Diagnostics.ReportText | src/main/kotlin/ink/ptms/glaikit/kts/GlaiEvaluator.kt:60 | The message alone, or followed by ": exception" when one is attached. |
| Serialization.ToStr | src/main/kotlin/ink/ptms/glaikit/kts/GlaiScriptFile.kt:21 | toString of a stored string is the string, of a compiled script its text, and of null "null". |
| Serialization.IntToString | src/main/kotlin/ink/ptms/glaikit/kts/GlaiScriptFile.kt:21 | A non-empty rendering, with a leading '-' exactly for negative numbers. |
| Serialization.DecimalRoundTrip | src/main/kotlin/ink/ptms/glaikit/kts/GlaiScriptFile.kt:21 | Reading the decimal digits back gives the number. |
| Serialization.IntToStringInjective | src/main/kotlin/ink/ptms/glaikit/kts/GlaiScriptFile.kt:21 | Equal renderings come only from equal integers. |
| Serialization.ReadIntAt | src/main/kotlin/ink/ptms/glaikit/kts/GlaiScriptFile.kt:38 | readInt succeeds exactly on block data at the cursor and returns it. Otherwise it raises EOFException. |
| Serialization.ReadObjectAt | src/main/kotlin/ink/ptms/glaikit/kts/GlaiScriptFile.kt:38-39 | readObject succeeds exactly on an object at the cursor. Block data raises OptionalDataException and the end EOFException. |
| Serialization.AsAny | src/main/kotlin/ink/ptms/glaikit/kts/GlaiScriptFile.kt:38 | `as Any` passes a non-null object, refuses null, and passes exceptions on. |
| Serialization.AsString | src/main/kotlin/ink/ptms/glaikit/GlaiEvaluator.kt:108 | `as String` succeeds exactly on a string object, and passes exceptions on. |
| Serialization.AsCompiledScript | src/main/kotlin/ink/ptms/glaikit/kts/GlaiScriptFile.kt:39 | `as CompiledScript` succeeds exactly on a compiled-script object, and passes exceptions on. |
| Serialization.WriteThenRead | src/main/kotlin/ink/ptms/glaikit/kts/GlaiCompiler.kt:30-36 | writeInt reads back with readInt and writeObject with readObject. writeInt read with readObject raises OptionalDataException. |
| Serialization.ObjectOutputStream.WriteInt | src/main/kotlin/ink/ptms/glaikit/kts/GlaiCompiler.kt:30 | One block-data item appended to what was written. |
| Serialization.ObjectOutputStream.WriteObject | src/main/kotlin/ink/ptms/glaikit/kts/GlaiCompiler.kt:31 | One object appended to what was written. |
| Serialization.ObjectInputStream.ReadInt | src/main/kotlin/ink/ptms/glaikit/kts/GlaiScriptFile.kt:38 | The result is ReadIntAt at the cursor, and the cursor advances only on success. |
| Serialization.ObjectInputStream.ReadObject | src/main/kotlin/ink/ptms/glaikit/kts/GlaiScriptFile.kt:38-39 | The result is ReadObjectAt at the cursor, and the cursor advances only on success. |
| Serialization.FileSystem.ReadBytes | src/main/kotlin/ink/ptms/glaikit/kts/GlaiScriptFile.kt:36 | The stored content of an existing file. FileNotFoundException otherwise. |
| Serialization.FileSystem.WriteBytes | src/main/kotlin/ink/ptms/glaikit/kts/GlaiCompiler.kt:38 | The file is created or replaced with the content, nothing else changes, and one write is counted. |
| ScriptFile.NewScriptFile | src/main/kotlin/ink/ptms/glaikit/kts/GlaiScriptFile.kt:15-31 | Construction succeeds exactly with at least 5 header objects and an Int at index 3. The fields are the projections of indexes 0, 1, 3 and 4. Too short a header raises IndexOutOfBounds and a non-Int at 3 ClassCast. |
| ScriptFile.ReadObjects | src/main/kotlin/ink/ptms/glaikit/kts/GlaiScriptFile.kt:38 | A successful `(1..n).map { readObject() as Any }` yields exactly n objects. |
| ScriptFile.ReadObjectsIff | src/main/kotlin/ink/ptms/glaikit/kts/GlaiScriptFile.kt:38 | The n header objects are read exactly when the next n items are non-null objects, and they are those objects. |
| ScriptFile.LoadSpecIff | src/main/kotlin/ink/ptms/glaikit/kts/GlaiScriptFile.kt:35-43 | loadFromFile succeeds exactly on a count n ≥ 5, n non-null objects with an Int fourth, then a compiled script. It yields the digests, size and description from those positions, keeps sourceFile, and holds the script after the header. |
| ScriptFile.AnyCountAccepted | src/main/kotlin/ink/ptms/glaikit/kts/GlaiScriptFile.kt:38 | Any count of five or more is accepted, with no version checked. |
| ScriptFile.LoadFromFile | src/main/kotlin/ink/ptms/glaikit/kts/GlaiScriptFile.kt:35-43 | The stream-reading loop returns what LoadSpec says for the file's content, or FileNotFoundException for a missing file. |
| Compiler.DescriptionEmpty | src/main/kotlin/ink/ptms/glaikit/kts/GlaiCompiler.kt:35 | The property description is "" exactly when there are no properties. |
| Compiler.DescriptionSingle | src/main/kotlin/ink/ptms/glaikit/kts/GlaiCompiler.kt:35 | One property is described as "key: className". |
| Compiler.DescriptionCons | src/main/kotlin/ink/ptms/glaikit/kts/GlaiCompiler.kt:35 | Further properties follow the first entry after ", ". |
| Compiler.AfterCompile | src/main/kotlin/ink/ptms/glaikit/kts/GlaiCompiler.kt:26-40 | The record is stored under the compiled file only on success with a compiled file given. No other file changes. |
| Compiler.RecordUnreadable | src/main/kotlin/ink/ptms/glaikit/kts/GlaiCompiler.kt:30-36 | Loading the record compile writes raises OptionalDataException, because the property count is primitive data where an object is read. |
| Compiler.BoxedCountStillUnreadable | src/main/kotlin/ink/ptms/glaikit/kts/GlaiScriptFile.kt:26-38 | Even with the count written as an object, the header ends at four objects and the load raises ClassCastException. |
| Compiler.DefaultDigests | src/main/kotlin/ink/ptms/glaikit/kts/GlaiCompiler.kt:23 | The default digest pair is the SHA-1 hex of the source content and the property digest. |
| Compiler.Compile | src/main/kotlin/ink/ptms/glaikit/kts/GlaiCompiler.kt:19-43 | The result is onSuccess of the compiler's result. The continuation runs exactly on success. The six-item record is stored with one write exactly on success with a compiled file. A failure writes nothing. |
| ScriptIO.Unsigned | src/main/kotlin/ink/ptms/glaikit/scripting/ScriptIO.kt:53 | `BigInteger(1, d)` is below 256^\|d\|. |
| ScriptIO.ToStringRadix | src/main/kotlin/ink/ptms/glaikit/scripting/ScriptIO.kt:53 | The rendering is non-empty and uses lower-case digits. It starts with '0' exactly for zero, which renders as "0". |
| ScriptIO.RadixRoundTrip | src/main/kotlin/ink/ptms/glaikit/scripting/ScriptIO.kt:53 | Parsing the rendering back gives the number. |
| ScriptIO.RadixLength | src/main/kotlin/ink/ptms/glaikit/scripting/ScriptIO.kt:53 | The rendering has at most k digits exactly when the number is below radix^k. |
| ScriptIO.HexOfShape | src/main/kotlin/ink/ptms/glaikit/scripting/ScriptIO.kt:64 | The digest text is lower-case hex with no leading zero except "0" itself, which renders the zero value. It denotes the unsigned value and has at most 2·\|d\| characters. |
| ScriptIO.HexOfZero | src/main/kotlin/ink/ptms/glaikit/scripting/ScriptIO.kt:53 | An all-zero digest renders as "0". |
| ScriptIO.HexDropsLeadingZeros | src/main/kotlin/ink/ptms/glaikit/scripting/ScriptIO.kt:64 | Leading zero bytes are dropped, so the text can be shorter than two characters per byte. |
| ScriptIO.EncodeChar | src/main/kotlin/ink/ptms/glaikit/scripting/ScriptIO.kt:52 | One character encodes as 1 to 4 UTF-8 bytes. |
| ScriptIO.EncodeCharDecodes | src/main/kotlin/ink/ptms/glaikit/scripting/ScriptIO.kt:52 | The lead byte gives the sequence length, and the sequence decodes to the character. |
| ScriptIO.Utf8Injective | src/main/kotlin/ink/ptms/glaikit/scripting/ScriptIO.kt:52 | Different strings have different UTF-8 bytes. |
| ScriptIO.Utf8Ascii | src/main/kotlin/ink/ptms/glaikit/scripting/ScriptIO.kt:52 | An ASCII string encodes as one byte per character, each byte equal to its character code. |
| ScriptIO.StringDigestIsBytesDigest | src/main/kotlin/ink/ptms/glaikit/scripting/ScriptIO.kt:50-66 | A string's digest is the digest of its UTF-8 bytes, so it equals the digest of a file with those bytes. It is lower-case hex. |
| ScriptIO.MessageDigest.Update | src/main/kotlin/ink/ptms/glaikit/scripting/ScriptIO.kt:62 | The buffer's first len bytes are appended as one chunk. |
| ScriptIO.FileInputStream.Read | src/main/kotlin/ink/ptms/glaikit/scripting/ScriptIO.kt:61 | -1 at the end. Otherwise between 1 and len bytes, which are the next bytes of the file, copied into the buffer. Every other byte of the buffer is left unchanged. |
| ScriptIO.FeedAndRead | src/main/kotlin/ink/ptms/glaikit/scripting/ScriptIO.kt:61-63 | One round of the loop feeds the bytes read and reads on. Everything before the cursor has been fed, in chunks of 1 to 1024 bytes. |
| ScriptIO.FileDigest | src/main/kotlin/ink/ptms/glaikit/scripting/ScriptIO.kt:56-66 | The chunks are fed in order, each 1 to 1024 bytes, and together they are the file's content. The result is the hex digest of the whole content. |
| Env.NonBlank | src/main/kotlin/ink/ptms/glaikit/GlaiEnv.kt:56 | Exactly the non-blank lines, in order, each as many times as it occurs in the input. |
| Env.PackageOf | src/main/kotlin/ink/ptms/glaikit/GlaiEnv.kt:61 | The text before the last '.': it prefixes the name followed by '.', and no '.' comes after that one. The whole name when it has no '.'. |
| Env.Wildcards | src/main/kotlin/ink/ptms/glaikit/GlaiEnv.kt:61 | Each package followed by ".*", in order. |
| Env.WildcardsNoDuplicates | src/main/kotlin/ink/ptms/glaikit/GlaiEnv.kt:61 | Distinct packages give distinct wildcards. |
| Env.ImportPackages | src/main/kotlin/ink/ptms/glaikit/GlaiEnv.kt:61 | Exactly the non-empty packages of the scanned classes, none twice. |
| Env.LoadImportsShape | src/main/kotlin/ink/ptms/glaikit/GlaiEnv.kt:55-62 | Every import ends with ".*" and none repeats. They are exactly the non-empty packages, plus ".*", of the classes the scanner finds from the non-blank lines. |
| Env.LoadFunctionsFromFile | src/main/kotlin/ink/ptms/glaikit/GlaiEnv.kt:98-100 | Exactly the non-blank lines, in file order, each as many times as it occurs in the file. |
| Env.MainPackage | src/main/kotlin/ink/ptms/glaikit/GlaiEnv.kt:76-81 | For TabooLib's Bukkit or Bungee platform class, the prefix that ".taboolibId" follows, with no earlier occurrence of ".taboolibId", or the whole name when it has none. Otherwise the class's package. |
| Env.PluginSpecParts | src/main/kotlin/ink/ptms/glaikit/GlaiEnv.kt:72-84 | Only the part before the first ':' names the plugin. The specs are "!!", the main package, the second part split on ',', and the TabooLib exclusion. Further parts are ignored. |
| Env.PluginSpecPackages | src/main/kotlin/ink/ptms/glaikit/GlaiEnv.kt:72-84 | For `plugin:pkg1,pkg2` the plugin name is the part before the ':'. The specs are "!!", the main package, the packages split on ',', and the TabooLib exclusion. |
| Env.PluginSpecBare | src/main/kotlin/ink/ptms/glaikit/GlaiEnv.kt:83-84 | A bare plugin name has no extra packages. |
| Env.UnknownPluginNoImports | src/main/kotlin/ink/ptms/glaikit/GlaiEnv.kt:73 | An unknown plugin yields no imports. |
| Env.CacheNeverHits | src/main/kotlin/ink/ptms/glaikit/GlaiEnv.kt:69-71 | The cache lookup compares the name with stored lists, so it never hits. |
| Env.GlaiEnv.constructor | src/main/kotlin/ink/ptms/glaikit/GlaiEnv.kt:20-38 | Both shared collections start empty. |
| Env.GlaiEnv.SetupGlobalImports | src/main/kotlin/ink/ptms/glaikit/GlaiEnv.kt:43-49 | The cache is emptied. The global list becomes the default imports, then the default functions. The imports alone are written out. |
| Env.GlaiEnv.LoadImportFromPlugin | src/main/kotlin/ink/ptms/glaikit/GlaiEnv.kt:68-90 | Returns the plugin's scanned imports. A non-empty result is cached and written out. An empty one changes nothing. |
| KotlinScript.ProvidedPropertiesAgree | src/main/kotlin/ink/ptms/glaikit/kts/GlaiKotlinScript.kt:57-76 | Both configurations list the runtime properties in order with runArgs last. Each compile-time class is the class of the evaluation value. |
| KotlinScript.FindScriptsIff | src/main/kotlin/ink/ptms/glaikit/kts/GlaiKotlinScript.kt:160-171 | findScripts finds exactly the .kts and .kit files reachable without passing a '.'-prefixed entry. |
| KotlinScript.FindAllIff | src/main/kotlin/ink/ptms/glaikit/kts/GlaiKotlinScript.kt:164-166 | The flatMap over a directory's entries finds exactly the scripts reachable from one of them. |
| KotlinScript.ReachableVisibleShape | src/main/kotlin/ink/ptms/glaikit/kts/GlaiKotlinScript.kt:160-171 | A reachable file lies below the start directory, and no name on its path starts with '.'. |
| KotlinScript.FindScriptsSound | src/main/kotlin/ink/ptms/glaikit/kts/GlaiKotlinScript.kt:160-171 | Every script found is a .kts or .kit file below the folder, never under a '.'-prefixed entry, and found once. |
| KotlinScript.HiddenPruned | src/main/kotlin/ink/ptms/glaikit/kts/GlaiKotlinScript.kt:161-163 | A '.'-prefixed entry prunes its whole subtree. |
| KotlinScript.RegularFound | src/main/kotlin/ink/ptms/glaikit/kts/GlaiKotlinScript.kt:167-170 | A visible regular file is found alone when it is a script, and otherwise not at all. |
| KotlinScript.FindIncludeIgnoresName | src/main/kotlin/ink/ptms/glaikit/kts/GlaiKotlinScript.kt:147-150 | On a directory the requested name makes no difference. The result is findScripts of the directory. |
| KotlinScript.FindIncludeFile | src/main/kotlin/ink/ptms/glaikit/kts/GlaiKotlinScript.kt:151-154 | On a file, the include matches exactly when the name is the requested one or that plus ".kts". |
| KotlinScript.KtsNamed | src/main/kotlin/ink/ptms/glaikit/kts/GlaiKotlinScript.kt:151 | `nameWithoutExtension == script && extension == "kts"` holds exactly when the name is script + ".kts". |
| KotlinScript.ResolvePaths | src/main/kotlin/ink/ptms/glaikit/kts/GlaiKotlinScript.kt:111 | mapNotNull keeps at most one file per path. |
| KotlinScript.ResolverAnnotations | src/main/kotlin/ink/ptms/glaikit/kts/GlaiKotlinScript.kt:124 | Exactly the DependsOn and Repository annotations go to the resolver. |
| KotlinScript.UpdateClasspath | src/main/kotlin/ink/ptms/glaikit/kts/GlaiKotlinScript.kt:132 | The classpath afterwards holds exactly the old entries and the resolved ones. |
| KotlinScript.NoAnnotationsUnchanged | src/main/kotlin/ink/ptms/glaikit/kts/GlaiKotlinScript.kt:106-107 | Without collected annotations the configuration is returned unchanged as a success. |
| KotlinScript.ProcessAnnotationsSuccess | src/main/kotlin/ink/ptms/glaikit/kts/GlaiKotlinScript.kt:130-143 | On resolver success, the classpath gains the resolved entries and the resolver's reports are kept. Import scripts, default imports and compiler options each grow by the annotations' entries, in order. |
| KotlinScript.ProcessAnnotationsResolverFailure | src/main/kotlin/ink/ptms/glaikit/kts/GlaiKotlinScript.kt:130 | A failing resolver's failure is returned unchanged. |
| KotlinScript.ProcessAnnotationsResolverThrows | src/main/kotlin/ink/ptms/glaikit/kts/GlaiKotlinScript.kt:122-128 | A throwing resolver gives a failure carrying the exception's ERROR diagnostic alone. |
| KotlinScript.IncludesResolveAlike | src/main/kotlin/ink/ptms/glaikit/kts/GlaiKotlinScript.kt:110-112 | Every include path resolves to the first script found in the scripts folder. When there is none, all are dropped. |
| Registry.CloseCount | src/main/kotlin/ink/ptms/glaikit/scripting/ScriptContainer.kt:29-33 | The pass runs every cleanup, or stops right after the first that throws. |
| Registry.ClosedOnRelease | src/main/kotlin/ink/ptms/glaikit/scripting/ScriptContainer.kt:29-33 | The cleanups run are a prefix of the resources, in insertion order. |
| Registry.ThrowSkipsRest | src/main/kotlin/ink/ptms/glaikit/scripting/ScriptContainer.kt:29-33 | After a throwing cleanup, no later cleanup runs. |
| Registry.NoThrowClosesAll | src/main/kotlin/ink/ptms/glaikit/scripting/ScriptContainer.kt:30 | When no cleanup throws, all of them run. |
| Registry.ScriptManager.constructor | src/main/kotlin/ink/ptms/glaikit/kts/GlaiScriptManager.kt:16 | The registry starts empty and consistent. |
| Registry.ScriptManager.Register | src/main/kotlin/ink/ptms/glaikit/kts/GlaiScriptManager.kt:21-23 | A fresh, enabled, empty container with the script's base id is stored under id. An existing entry is replaced without release. |
| Registry.ScriptManager.Unregister | src/main/kotlin/ink/ptms/glaikit/kts/GlaiScriptManager.kt:28-30 | Exactly the key baseId is removed, whatever it holds. |
| Registry.ScriptManager.Get | src/main/kotlin/ink/ptms/glaikit/kts/GlaiScriptManager.kt:35-37 | The container stored under id, or none exactly when id is absent. |
| Registry.ScriptManager.GetAll | src/main/kotlin/ink/ptms/glaikit/kts/GlaiScriptManager.kt:42-44 | A snapshot with one entry per key, holding exactly the stored containers. None appears twice when no container is under two ids. |
| Registry.ScriptManager.ConsistentInjective | src/main/kotlin/ink/ptms/glaikit/kts/GlaiScriptManager.kt:21-23 | A registry filed by base ids holds each container under one id only. |
| Registry.ScriptContainer.constructor | src/main/kotlin/ink/ptms/glaikit/scripting/ScriptContainer.kt:14-20 | A new container is enabled, has no resources, and takes the script's base id. |
| Registry.ScriptContainer.AddResource | src/main/kotlin/ink/ptms/glaikit/scripting/ScriptContainer.kt:22-24 | One cleanup is appended at the end, whether enabled or not. Nothing else changes. |
| Registry.ScriptContainer.Release | src/main/kotlin/ink/ptms/glaikit/scripting/ScriptContainer.kt:26-36 | An enabled container is disabled, runs its cleanups in order until one throws, and is unregistered. A disabled one changes nothing. No cleanup ever runs twice. |
| Registry.ScriptContainer.CloseResources | src/main/kotlin/ink/ptms/glaikit/scripting/ScriptContainer.kt:29-33 | The loop inside the one try runs exactly ClosedOnRelease of the resources. |
| Registry.ReleaseAll | src/main/kotlin/ink/ptms/glaikit/GlaiKit.kt:37-39 | Every stored container ends disabled with its cleanups intact. One that was enabled has run ClosedOnRelease of them, and one already disabled has run nothing more. The registry loses exactly the base ids of the containers that were enabled, and every other entry stays as it was. An entry under an id other than its container's base id can therefore survive. A registry filed by base ids ends empty. |
| Registry.ReleaseSnapshot | src/main/kotlin/ink/ptms/glaikit/GlaiKit.kt:38 | The snapshot-and-release pass has ReleaseAll's effect on the containers and on the registry's entries, for any registry. |
| Registry.ReleaseEach | src/main/kotlin/ink/ptms/glaikit/GlaiKit.kt:38 | The loop over the snapshot releases every container once. The net effect is as ReleaseAll states, measured against the state at the start. |
| Registry.ReleaseNext | src/main/kotlin/ink/ptms/glaikit/GlaiKit.kt:38 | Releasing one more container takes out its base id exactly when it was enabled at the start and not yet released. Containers not yet reached stay as they were. |
| Registry.SnapshotIds | src/main/kotlin/ink/ptms/glaikit/kts/GlaiScriptManager.kt:42-44 | A snapshot of a consistent registry has distinct base ids, which are exactly the keys. |
| KtsEvaluator.Future.Complete | src/main/kotlin/ink/ptms/glaikit/kts/GlaiEvaluator.kt:106 | The first completion wins, and later ones change nothing. |
| KtsEvaluator.IsScriptRunning | src/main/kotlin/ink/ptms/glaikit/kts/GlaiEvaluator.kt:50-52 | True exactly when a container is registered under the file's name without extension. |
| KtsEvaluator.ReportResultExactly | src/main/kotlin/ink/ptms/glaikit/kts/GlaiEvaluator.kt:57-62 | Exactly the diagnostics above DEBUG with none of the ignored texts are reported, one message each, in original order. |
| KtsEvaluator.ReportResultDrops | src/main/kotlin/ink/ptms/glaikit/kts/GlaiEvaluator.kt:59 | A DEBUG diagnostic, or one containing an ignored text, is never reported. |
| KtsEvaluator.ReportResultAppend | src/main/kotlin/ink/ptms/glaikit/kts/GlaiEvaluator.kt:59-61 | One more diagnostic adds its message exactly when it is forwarded. |
| KtsEvaluator.Report | src/main/kotlin/ink/ptms/glaikit/kts/GlaiEvaluator.kt:57-62 | The loop sends exactly ReportResult's messages, in order. |
| KtsEvaluator.CacheFileName | src/main/kotlin/ink/ptms/glaikit/kts/GlaiEvaluator.kt:121-122 | The cache file's name without extension is the script's. |
| KtsEvaluator.CompilePath | src/main/kotlin/ink/ptms/glaikit/kts/GlaiEvaluator.kt:129-150 | The compile path always returns normally. |
| KtsEvaluator.Run | src/main/kotlin/ink/ptms/glaikit/kts/GlaiEvaluator.kt:97-112 | The local run has RunSpec's effect: a load exception escapes, or the messages are sent and the future is completed as specified. |
| KtsEvaluator.Eval | src/main/kotlin/ink/ptms/glaikit/kts/GlaiEvaluator.kt:76-152 | eval's exception, messages, future and files are those EvalSpec gives for the registry's running state and the files before. |
| KtsEvaluator.EvalIdle | src/main/kotlin/ink/ptms/glaikit/kts/GlaiEvaluator.kt:114-152 | eval on a script that is not running realizes EvalSpec. |
| KtsEvaluator.EvalKit | src/main/kotlin/ink/ptms/glaikit/kts/GlaiEvaluator.kt:115-118 | A .kit file is run without the content check and nothing else happens. |
| KtsEvaluator.EvalSource | src/main/kotlin/ink/ptms/glaikit/kts/GlaiEvaluator.kt:120-152 | The cache attempt, then the compile block unless the cache evaluated, realize SourcePath. |
| KtsEvaluator.CompileAfterMiss | src/main/kotlin/ink/ptms/glaikit/kts/GlaiEvaluator.kt:127-150 | After a cache miss, the compile block adds its messages to those of the miss. |
| KtsEvaluator.TryCache | src/main/kotlin/ink/ptms/glaikit/kts/GlaiEvaluator.kt:121-125 | The record is run only when it exists and caching is on. |
| KtsEvaluator.CompileStep | src/main/kotlin/ink/ptms/glaikit/kts/GlaiEvaluator.kt:129-150 | The compile block and the report have CompilePath's messages, completion and files. |
| KtsEvaluator.CompileAndComplete | src/main/kotlin/ink/ptms/glaikit/kts/GlaiEvaluator.kt:135-143 | The future holds the evaluation result or the compile failure. The cache file is passed only when caching. compile-success is sent only on success. |
| KtsEvaluator.RunningRefused | src/main/kotlin/ink/ptms/glaikit/kts/GlaiEvaluator.kt:89-92 | A running script gets one script-is-running message and a future never completed. Nothing is loaded or written. |
| KtsEvaluator.KitSkipsContentCheck | src/main/kotlin/ink/ptms/glaikit/kts/GlaiEvaluator.kt:97-118 | A readable .kit file is evaluated whenever its property digest matches, whatever its content digest. Otherwise one property-not-match message is sent, the future stays open, and nothing compiles. |
| KtsEvaluator.StaleContentRecompiles | src/main/kotlin/ink/ptms/glaikit/kts/GlaiEvaluator.kt:100-101 | A content-digest mismatch falls through to compilation without a message. |
| KtsEvaluator.PropertyMismatchRecompiles | src/main/kotlin/ink/ptms/glaikit/kts/GlaiEvaluator.kt:102-104 | A property-digest mismatch sends property-not-match with the stored size and description, then still compiles. |
| KtsEvaluator.CacheHitNotReported | src/main/kotlin/ink/ptms/glaikit/kts/GlaiEvaluator.kt:105-124 | A record matching both digests is evaluated, and nothing is compiled, written or reported. |
| KtsEvaluator.NoCacheCompiles | src/main/kotlin/ink/ptms/glaikit/kts/GlaiEvaluator.kt:123-135 | Without caching or without a cache file, eval compiles at once. Without caching nothing is written. |
| KtsEvaluator.CompilePathOutcome | src/main/kotlin/ink/ptms/glaikit/kts/GlaiEvaluator.kt:135-150 | The future holds the evaluation result on success and the failure otherwise. The record is written only on success with caching. The last messages report the future's result. |
| KtsEvaluator.SecondEvalThrows | src/main/kotlin/ink/ptms/glaikit/kts/GlaiEvaluator.kt:99-123 | After a caching compile, the next eval of the script raises OptionalDataException while loading the record. |
| KtsEvaluator.WrittenKitThrows | src/main/kotlin/ink/ptms/glaikit/kts/GlaiEvaluator.kt:115-116 | Running a .kit file that compile wrote raises the same way. |
| LegacyEvaluator.CacheSpec | src/main/kotlin/ink/ptms/glaikit/GlaiEvaluator.kt:105-116 | A missing file raises FileNotFoundException. With no digest given, a successful read always evaluates. |
| LegacyEvaluator.CacheSpecCases | src/main/kotlin/ink/ptms/glaikit/GlaiEvaluator.kt:105-116 | Null is returned exactly when the stored string differs from the given digest. The script is evaluated exactly when the string matches, or no digest is given, and a compiled script follows. |
| LegacyEvaluator.RecordRoundTrip | src/main/kotlin/ink/ptms/glaikit/GlaiEvaluator.kt:74-81 | The record [digest, compiled] read back hits for the same digest and for no digest, and misses for any other. |
| LegacyEvaluator.EvalCacheFile | src/main/kotlin/ink/ptms/glaikit/GlaiEvaluator.kt:105-116 | The stream reads give CacheSpec's result. |
| LegacyEvaluator.CompilePath | src/main/kotlin/ink/ptms/glaikit/GlaiEvaluator.kt:67-89 | The compile path always returns normally. |
| LegacyEvaluator.EvalFile | src/main/kotlin/ink/ptms/glaikit/GlaiEvaluator.kt:50-91 | evalFile's exception, log, future and files are those EvalFileSpec gives. |
| LegacyEvaluator.EvalKitFile | src/main/kotlin/ink/ptms/glaikit/GlaiEvaluator.kt:52-55 | A .kit file's future is completed with evalCacheFile without a digest, or the read exception escapes. |
| LegacyEvaluator.EvalSourceFile | src/main/kotlin/ink/ptms/glaikit/GlaiEvaluator.kt:56-90 | The cache check, then the compile block, realize SourcePath. |
| LegacyEvaluator.CompileBlock | src/main/kotlin/ink/ptms/glaikit/GlaiEvaluator.kt:67-88 | The lines, the future and the files after the compile block are CompilePath's. |
| LegacyEvaluator.KitAlwaysEvaluated | src/main/kotlin/ink/ptms/glaikit/GlaiEvaluator.kt:52-55 | A readable .kit record is evaluated whatever digest it holds, whatever useCache says. |
| LegacyEvaluator.KitNeverCompiles | src/main/kotlin/ink/ptms/glaikit/GlaiEvaluator.kt:52-55 | A .kit file is never compiled. When evalFile returns, its future is complete. |
| LegacyEvaluator.SecondEvalHits | src/main/kotlin/ink/ptms/glaikit/GlaiEvaluator.kt:57-81 | The first eval compiles and writes [digest, compiled]. The next eval of the unchanged source hits that record with the same result. |
| LegacyEvaluator.StaleRecordRecompiles | src/main/kotlin/ink/ptms/glaikit/GlaiEvaluator.kt:60-66 | A record with another digest is passed over silently and the source recompiled. |
| LegacyEvaluator.NoCacheNeitherReadNorWritten | src/main/kotlin/ink/ptms/glaikit/GlaiEvaluator.kt:60-74 | With useCache off, the cache is neither read nor written. |
| LegacyEvaluator.CompileFailureWritesNothing | src/main/kotlin/ink/ptms/glaikit/GlaiEvaluator.kt:73-87 | A compile failure completes the future with the failure, logs only script-compile, and writes nothing. |
| LegacyEvaluator.CorruptRecordRaises | src/main/kotlin/ink/ptms/glaikit/GlaiEvaluator.kt:108 | A cache file not starting with an object raises OptionalDataException instead of recompiling. |
| LegacyEvaluator.ShownIsForwarded | src/main/kotlin/ink/ptms/glaikit/GlaiEvaluator.kt:97 | The evalFileAndReport filter is reportResult's filter with "never used" as the only ignored text. |
| LegacyEvaluator.ReportLinesExactly | src/main/kotlin/ink/ptms/glaikit/GlaiEvaluator.kt:96-100 | Exactly the diagnostics above DEBUG without "never used" get a line, in order. |
| LegacyEvaluator.ReportLinesAppend | src/main/kotlin/ink/ptms/glaikit/GlaiEvaluator.kt:96-99 | One more diagnostic adds its line exactly when it is shown. |
| LegacyEvaluator.Report | src/main/kotlin/ink/ptms/glaikit/GlaiEvaluator.kt:95-101 | The loop sends exactly ReportLines, in order. |
| LegacyEvaluator.EvalFileAndReport | src/main/kotlin/ink/ptms/glaikit/GlaiEvaluator.kt:93-103 | evalFile with cache and notify on, then the report of the future's result, has EvalAndReport's effect. |
| LegacyEvaluator.LoadOrderIff | src/main/kotlin/ink/ptms/glaikit/GlaiEvaluator.kt:32-43 | The walk evaluates exactly the "kts" files met through directories whose own names do not start with '.'. |
| LegacyEvaluator.HiddenScriptStillLoaded | src/main/kotlin/ink/ptms/glaikit/GlaiEvaluator.kt:33-41 | A '.'-prefixed .kts file in a scanned folder is evaluated by the walk, although findScripts leaves it out. |
| LegacyEvaluator.DraftLoaded | src/main/kotlin/ink/ptms/glaikit/GlaiEvaluator.kt:36-41 | A folder holding only ".draft.kts" evaluates exactly that file. |
| LegacyEvaluator.HiddenDirectorySkipped | src/main/kotlin/ink/ptms/glaikit/GlaiEvaluator.kt:33-35 | A '.'-prefixed directory is skipped whole. |
| LegacyEvaluator.Load | src/main/kotlin/ink/ptms/glaikit/GlaiEvaluator.kt:32-43 | The recursive walk has the effect of evalFileAndReport on each file of LoadOrder in turn, stopping at the first exception. |
| LegacyEvaluator.LoadEntry | src/main/kotlin/ink/ptms/glaikit/GlaiEvaluator.kt:37-41 | A subdirectory is walked, a "kts" file is evaluated and reported, and any other entry is passed over. |
| Kotlin.SubstringBeforeLast | src/main/kotlin/ink/ptms/glaikit/GlaiEnv.kt:61 | Defines substringBeforeLast. Stated by Kotlin.SplitAtLast and Kotlin.SplitAtLastAbsent. |
| Kotlin.SubstringAfterLast | src/main/kotlin/ink/ptms/glaikit/kts/GlaiKotlinScript.kt:151 | Defines substringAfterLast with its missing-value default. Stated by Kotlin.SplitAtLast and Kotlin.SplitAtLastAbsent. |
| Kotlin.Join | src/main/kotlin/ink/ptms/glaikit/kts/GlaiCompiler.kt:35 | Defines joinToString. Stated by Kotlin.JoinSplit, Compiler.DescriptionEmpty, Compiler.DescriptionSingle and Compiler.DescriptionCons. |
| Kotlin.Extension | src/main/kotlin/ink/ptms/glaikit/kts/GlaiEvaluator.kt:115 | Defines File.extension, the text after the last '.' or "". Stated by Kotlin.NameParts. |
| Kotlin.NameWithoutExtension | src/main/kotlin/ink/ptms/glaikit/kts/GlaiEvaluator.kt:121 | Defines File.nameWithoutExtension, the text before the last '.'. Stated by Kotlin.NameParts and KtsEvaluator.CacheFileName. |
| Kotlin.IsBlank | src/main/kotlin/ink/ptms/glaikit/GlaiEnv.kt:56 | Defines isBlank: empty, or whitespace only. Env.NonBlank keeps exactly the lines where it fails. |
| ScriptIO.HexOf | src/main/kotlin/ink/ptms/glaikit/scripting/ScriptIO.kt:53 | Defines `BigInteger(1, d).toString(16)`. Stated by ScriptIO.HexOfShape, ScriptIO.HexOfZero and ScriptIO.HexDropsLeadingZeros. |
| ScriptIO.Utf8 | src/main/kotlin/ink/ptms/glaikit/scripting/ScriptIO.kt:52 | Defines toByteArray(UTF_8), character by character. Stated by ScriptIO.Utf8Injective, ScriptIO.Utf8Ascii and ScriptIO.EncodeCharDecodes. |
| ScriptIO.StringDigest | src/main/kotlin/ink/ptms/glaikit/scripting/ScriptIO.kt:50-54 | Defines String.digest as one update with the UTF-8 bytes, rendered as hex. Stated by ScriptIO.StringDigestIsBytesDigest. |
| ScriptFile.LoadSpec | src/main/kotlin/ink/ptms/glaikit/kts/GlaiScriptFile.kt:35-43 | Defines loadFromFile on a stored item sequence: the count, that many objects, then the compiled script. Stated by ScriptFile.LoadSpecIff and ScriptFile.AnyCountAccepted, and realised by ScriptFile.LoadFromFile. |
| Compiler.Description | src/main/kotlin/ink/ptms/glaikit/kts/GlaiCompiler.kt:35 | Defines the property description. Stated by Compiler.DescriptionEmpty, Compiler.DescriptionSingle and Compiler.DescriptionCons. |
| Compiler.KtsRecord | src/main/kotlin/ink/ptms/glaikit/kts/GlaiCompiler.kt:30-36 | Defines the six items compile writes: Int 4, the two digests, the count as primitive data, the description, and the script. Compiler.Compile writes it, and Compiler.RecordUnreadable shows the reader rejects it. |
| Env.LoadImportsFromString | src/main/kotlin/ink/ptms/glaikit/GlaiEnv.kt:55-62 | Defines loadImportsFromString over the scanner. Stated by Env.LoadImportsShape. |
| Env.PluginSpecs | src/main/kotlin/ink/ptms/glaikit/GlaiEnv.kt:72-84 | Defines the scanner specs for a plugin name. Stated by Env.PluginSpecPackages, Env.PluginSpecParts and Env.PluginSpecBare. |
| Env.PluginImports | src/main/kotlin/ink/ptms/glaikit/GlaiEnv.kt:72-89 | Defines what loadImportFromPlugin computes past the cache check. Stated by Env.UnknownPluginNoImports, and returned by Env.GlaiEnv.LoadImportFromPlugin. |
| KotlinScript.CompilationProperties | src/main/kotlin/ink/ptms/glaikit/kts/GlaiKotlinScript.kt:57-59 | Defines the compile-time provided properties. Stated by KotlinScript.ProvidedPropertiesAgree. |
| KotlinScript.EvaluationProperties | src/main/kotlin/ink/ptms/glaikit/kts/GlaiKotlinScript.kt:74-76 | Defines the evaluation-time provided properties. Stated by KotlinScript.ProvidedPropertiesAgree. |
| KotlinScript.FindScripts | src/main/kotlin/ink/ptms/glaikit/kts/GlaiKotlinScript.kt:160-171 | Defines findScripts over a directory tree. Stated by KotlinScript.FindScriptsIff, FindScriptsSound, HiddenPruned and RegularFound. |
| KotlinScript.FindInclude | src/main/kotlin/ink/ptms/glaikit/kts/GlaiKotlinScript.kt:147-155 | Defines findInclude. Stated by KotlinScript.FindIncludeIgnoresName and FindIncludeFile. |
| KotlinScript.Refine | src/main/kotlin/ink/ptms/glaikit/kts/GlaiKotlinScript.kt:130-143 | Defines the configuration builder: the classpath updated, each non-empty list appended. Stated by KotlinScript.ProcessAnnotationsSuccess. |
| KotlinScript.ProcessAnnotations | src/main/kotlin/ink/ptms/glaikit/kts/GlaiKotlinScript.kt:91-144 | Defines processAnnotations. Stated by NoAnnotationsUnchanged, ProcessAnnotationsSuccess, ProcessAnnotationsResolverFailure, ProcessAnnotationsResolverThrows and IncludesResolveAlike in KotlinScript. |
| KtsEvaluator.ReportResult | src/main/kotlin/ink/ptms/glaikit/kts/GlaiEvaluator.kt:57-62 | Defines the messages reportResult sends. Stated by KtsEvaluator.ReportResultExactly, ReportResultDrops and ReportResultAppend, and sent by KtsEvaluator.Report. |
| KtsEvaluator.RunSpec | src/main/kotlin/ink/ptms/glaikit/kts/GlaiEvaluator.kt:97-112 | Defines the local run. Stated by KtsEvaluator.KitSkipsContentCheck, StaleContentRecompiles and PropertyMismatchRecompiles, and realised by KtsEvaluator.Run. |
| KtsEvaluator.CompileResult | src/main/kotlin/ink/ptms/glaikit/kts/GlaiEvaluator.kt:137-143 | Defines what the compile block completes the future with. Stated by KtsEvaluator.CompilePathOutcome. |
| KtsEvaluator.SourcePath | src/main/kotlin/ink/ptms/glaikit/kts/GlaiEvaluator.kt:120-150 | Defines eval on a source file that is not running. Stated by KtsEvaluator.CacheHitNotReported, NoCacheCompiles and StaleContentRecompiles, and realised by KtsEvaluator.EvalSource. |
| KtsEvaluator.EvalSpec | src/main/kotlin/ink/ptms/glaikit/kts/GlaiEvaluator.kt:76-152 | Defines eval as an outcome. Stated by KtsEvaluator.RunningRefused and the lemmas after it, and realised by KtsEvaluator.Eval. |
| LegacyEvaluator.CompileResult | src/main/kotlin/ink/ptms/glaikit/GlaiEvaluator.kt:73-87 | Defines what the compile block completes the future with. Stated by LegacyEvaluator.CompileFailureWritesNothing and SecondEvalHits. |
| LegacyEvaluator.Cached | src/main/kotlin/ink/ptms/glaikit/GlaiEvaluator.kt:60-66 | Defines the cache check of evalFile. Stated by LegacyEvaluator.StaleRecordRecompiles and NoCacheNeitherReadNorWritten. |
| LegacyEvaluator.SourcePath | src/main/kotlin/ink/ptms/glaikit/GlaiEvaluator.kt:56-90 | Defines evalFile on a source file. Stated by LegacyEvaluator.SecondEvalHits and StaleRecordRecompiles, and realised by LegacyEvaluator.EvalSourceFile. |
| LegacyEvaluator.EvalFileSpec | src/main/kotlin/ink/ptms/glaikit/GlaiEvaluator.kt:50-91 | Defines evalFile as an outcome. Stated by LegacyEvaluator.KitAlwaysEvaluated and the lemmas after it, and realised by LegacyEvaluator.EvalFile. |
| LegacyEvaluator.ReportLines | src/main/kotlin/ink/ptms/glaikit/GlaiEvaluator.kt:96-100 | Defines the lines evalFileAndReport sends. Stated by LegacyEvaluator.ReportLinesExactly and ReportLinesAppend, and sent by LegacyEvaluator.Report. |
| LegacyEvaluator.EvalAndReport | src/main/kotlin/ink/ptms/glaikit/GlaiEvaluator.kt:93-103 | Defines evalFileAndReport with cache and notify on. Realised by LegacyEvaluator.EvalFileAndReport. |
| LegacyEvaluator.LoadOrder | src/main/kotlin/ink/ptms/glaikit/GlaiEvaluator.kt:32-43 | Defines the files the startup walk evaluates, in order. Stated by LegacyEvaluator.LoadOrderIff, HiddenScriptStillLoaded and HiddenDirectorySkipped. |
| LegacyEvaluator.RunAll | src/main/kotlin/ink/ptms/glaikit/GlaiEvaluator.kt:36-41 | Defines evalFileAndReport on each file in turn, stopping at the first exception. Realised by LegacyEvaluator.Load. |

## Left out

- Concurrency is not modelled: `submit(async = …)`, `runBlocking`, `CompletableFuture` threading and `ConcurrentHashMap` atomicity. The compile block runs in place where it is submitted. A future is a cell completed at most once.
- KtsEvaluator.Eval: the report attached with `thenApply` is sent right after the compile block completes the future, since the block runs in place.
- The clock and the elapsed compile time are not modelled. Localisation is not modelled either: messages are their language keys with arguments, and the root evaluator's log lines use the key text.
- `printStackTrace` is not modelled. In `release`, an exception from a cleanup only ends the pass.
- The following are parameters:
  - the Kotlin compiler and evaluator;
  - the classpath scanner;
  - the Bukkit plugin lookup;
  - the dependency resolver;
  - the hash function behind `MessageDigest`.
- KtsEvaluator.Eval: the file's SHA-1 is a parameter, so the FileNotFoundException `File.digest` raises for a missing source is not modelled. The same holds for LegacyEvaluator.EvalFile and LegacyEvaluator.Load.
- The byte encoding of Java serialisation is not modelled. A stream is the sequence of block-data and object items written, and a compiled script is opaque.
- ScriptIO.Utf8: a Dafny string is a sequence of Unicode scalar values, not Java's UTF-16 code units. An unpaired surrogate, which `toByteArray(UTF_8)` turns into '?', cannot occur in this model.
- Compiler.DefaultDigests: the compiler and both evaluators call TabooLib's `File.digest` (`taboolib.common.io.digest`), which is not part of this model. It is taken to behave like `ScriptIO`'s chunked SHA-1 rendered as hex, and the model computes it with ScriptIO.FileDigest.
- ScriptIO.FileInputStream.Read: a read returns at most a fixed granule of bytes, because how the platform splits a file into reads is not fixed.
- Registry.ReleaseAll: a cleanup is modelled as `Resource(id, throws)`, which either returns or throws and touches nothing else. A real cleanup is an arbitrary closure. It could register, unregister or release containers, or add a resource to the container being released. That last case makes the list iteration raise `ConcurrentModificationException`, which the catch swallows. The model assumes cleanups touch neither the registry nor any container. ReleaseAll's promise about which registry entries go and which stay holds only under that assumption, and so do Release's and CloseResources'.
- Registry.ScriptManager.GetAll: the snapshot's order is left open, because `ConcurrentHashMap` iteration order is unspecified.
- KotlinScript.ProcessAnnotationsSuccess: the cache writes that `loadImportFromPlugin` makes during annotation processing are not modelled. The imports it returns are, and they are computed afresh because its cache never hits.
- The kts `setupScriptFiles` is not modelled: the `findScripts().forEach { eval(...) }` loop and the folders it creates. Its parts are modelled: `FindScripts` and `Eval`.
- `ScriptIO.newFile`, `deepDelete` and `deepCopyTo` are file-system plumbing with no decisions, and are not modelled. Neither is `GlaiEnv.setupClasspath`, which sets a system property.
- `ScriptRuntimeProperty` is not part of this model. Its digest, provided properties and runArgs are given values.
- LegacyEvaluator.EvalFileAndReport: the info log and the console sender are two separate sinks.
