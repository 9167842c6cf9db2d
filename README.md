# cm-spyglass virtual file systems and editor plugin, modelled in Dafny

cm-spyglass connects the Spyglass language service for Minecraft commands to a
CodeMirror editor in the browser. The language service reads and writes files
through one external file system. The plugin builds that file system as a router
(`MappedFileSystem`). The router sends each `file://` address to the first mounted
store whose source prefix covers it, after rewriting the address onto that
store's target prefix. There are four stores:

- an in-memory tree of directories and files (`MemoryFileSystem`);
- a read-only nested-object snapshot whose files are base64 text (`JsonFileSystem`);
- a flat dictionary persisted in `localStorage` (`LocalStorageFileSystem`);
- the browser's origin-private File System Access directory handles (`FSAFileSystem`).

Every store reports failures as `Error`s whose message starts with a POSIX-style
code (`EACCES`, `ENOENT`, `EEXIST`, `EISDIR`, `ENOTDIR`, `EPERM`). The project
also models:

- the small event emitter and the no-op watcher the stores hand out;
- the base64 and hexadecimal codecs;
- the build step that turns a decompressed archive into a snapshot object;
- the plugin itself: option defaults, the router it mounts (cache, root, then each
  bundled dependency), the initialisation and sync state machine, and moving the
  service's ranges through edits recorded since the service last saw the text;
- the conversion of errors and colour tokens into hints and marks, the one-slot
  decorations cache, and the colour theme built from a highlight style.

Modules follow the source files: one Dafny file per source file, plus
`*_props.dfy` files with the cross-operation properties of the stores, the router
and the plugin. The three tree-shaped stores share the value tree of
`file_tree.dfy`. Stores whose source mutates an object are classes whose methods
are proved against specification functions (`MkdirSpec`, `WriteFileSpec`,
`EmitSpec`, `Rules`, `MapRange`, ...), and the lemmas state what the source
promises about those functions.

## Model

| member | source | states |
|---|---|---|
| ErrorFactory.CreateKind | src/Externals/ErrorFactory.js:7-9 | a plain `Error` whose message is the kind, then `": "`, then the message |
| ErrorFactory.IsKind | src/Externals/ErrorFactory.js:16-18 | only an `Error` whose message is at least as long as the kind matches; the empty kind matches every `Error` |
| ErrorFactory.Fail | src/FileSystem/MemoryFileSystem.js:18-20 | a store failure is a rejected result classified as its own code |
| ErrorFactory.CreateKindIsKind | src/Externals/ErrorFactory.js:7-18 | `isKind(createKind(k, m), k)` holds for every kind and message |
| ErrorFactory.IsKindPrefix | src/Externals/ErrorFactory.js:16-18 | `isKind` is a prefix test: every prefix of the kind also matches |
| ErrorFactory.IsKindOther | src/Externals/ErrorFactory.js:16-18 | a thrown value that is not an `Error` matches no kind |
| ErrorFactory.CodesDistinct | src/Externals/ErrorFactory.js:16-18 | among the six store codes, an error of one code is classified as that code and no other |
| Strings.EnsureEndingSlash | src/FileSystem/LocalStorageFileSystem.js:48 | the result ends with `/`; it is the input when that already did, else the input plus `/` |
| Strings.Substring | src/FileSystem/MemoryFileSystem.js:25 | `substring(start)` is the suffix from `start`, or empty past the end |
| Strings.Split | src/FileSystem/MemoryFileSystem.js:26 | `split('/')` gives at least one piece, no piece holds the separator, one piece more than separators |
| Strings.JoinSplit | src/FileSystem/MemoryFileSystem.js:26 | joining the pieces of a split gives the string back |
| Strings.SplitJoin | src/FileSystem/MemoryFileSystem.js:26 | splitting joined separator-free pieces gives the pieces back |
| Strings.SplitTrailing | src/FileSystem/JsonFileSystem.js:29-30 | a trailing separator adds exactly one empty last piece |
| Strings.ReplaceAll | src/FileSystem/FSAFileSystem.js:62 | `replace(/\//g, '_')` keeps the length and replaces exactly the matching characters |
| Bytes.Utf8Char | src/FileSystem/LocalStorageFileSystem.js:123-125 | one to four bytes per character; one byte exactly below 0x80; a multi-byte encoding is a lead byte then continuation bytes |
| Bytes.Utf8Encode | src/FileSystem/LocalStorageFileSystem.js:123-125 | between one and four bytes per character; ASCII text encodes to its own codes |
| Bytes.ToBytes | src/FileSystem/LocalStorageFileSystem.js:123-125 | a byte payload is kept and a string payload is UTF-8 encoded |
| FileTree.EmptyDirectory | src/FileSystem/Memory/MemoryFileSystemDirectory.js:4 | a new directory has no entries |
| FileTree.NewFile | src/FileSystem/Memory/MemoryFileSystemFile.js:9-19 | a new file returns from `getContent` the content it was created with |
| FileTree.AddEntry | src/FileSystem/Memory/MemoryFileSystemDirectory.js:11-14 | the name maps to the new entry, every other name keeps its entry, and the names grow by that one |
| FileTree.GetEntry | src/FileSystem/Memory/MemoryFileSystemDirectory.js:20-22 | the entry under the name, or nothing exactly when the name is absent |
| FileTree.RemoveEntry | src/FileSystem/Memory/MemoryFileSystemDirectory.js:43-46 | the name is gone, every other name keeps its entry, and removing an absent name changes nothing |
| FileTree.HasEntryGetEntry | src/FileSystem/Memory/MemoryFileSystemDirectory.js:35-37 | `hasEntry` holds exactly when `getEntry` finds something |
| FileTree.DirentOf | src/FileSystem/MemoryFileSystem.js:113-120 | a listing entry carries the name, is a directory exactly for a directory, is a file otherwise, and is never a link |
| FileTree.StatsOf | src/FileSystem/MemoryFileSystem.js:148-156 | `stat` reports a directory exactly for a directory and a file exactly otherwise |
| FileTree.ReadEntries | src/FileSystem/MemoryFileSystem.js:112-121 | the listing loop gives each child once, by name, with its kind |
| FileTree.ListsNames | src/FileSystem/MemoryFileSystem.js:112-121 | the names of a listing are exactly the directory's children |
| FileTree.Step | src/FileSystem/MemoryFileSystem.js:42-55 | one step: an empty segment stays put, a step through a file fails, a step to an absent name is missing, otherwise the child |
| FileTree.WalkSnoc | src/FileSystem/MemoryFileSystem.js:42-55 | a walk one segment longer is the shorter walk and then one step |
| FileTree.WalkAppend | src/FileSystem/MemoryFileSystem.js:42-55 | walking two paths in a row is the walk along the first, then from there along the second |
| FileTree.WalkEmpty | src/FileSystem/MemoryFileSystem.js:43-45 | a path of empty segments ends where it started |
| FileTree.Put | src/FileSystem/MemoryFileSystem.js:195 | after adding an entry in the directory a path leads to, the same path leads to that directory with the entry added |
| FileTree.Delete | src/FileSystem/MemoryFileSystem.js:169 | after removing a name in the directory a path leads to, the same path leads to that directory without the name |
| FileTree.PutThenWalk | src/FileSystem/MemoryFileSystem.js:195 | after `Put`, the walk to the new name ends at the new entry |
| FileTree.DeleteThenWalk | src/FileSystem/MemoryFileSystem.js:169 | after `Delete`, the walk to the removed name finds nothing |
| Base64.Letter | src/Util/Base64.js:8-22 | a digit of the section 4 alphabet of RFC 4648 is never the pad `=` |
| Base64.Value | src/Util/Base64.js:28-34 | a decoded digit is a six-bit value whose digit is the character read |
| Base64.ValueLetter | src/Util/Base64.js:28-34 | decoding the digit of a value gives that value |
| Base64.Encode | src/Util/Base64.js:8-22 | the text is empty exactly for no bytes, one group of four for one to three bytes, and always a multiple of four long |
| Base64.Single | src/Util/Base64.js:8-22 | a last group of one byte is two digits and two `=` |
| Base64.Pair | src/Util/Base64.js:8-22 | a last group of two bytes is three digits and one `=` |
| Base64.Quad | src/Util/Base64.js:8-22 | a full group of three bytes is four digits without padding |
| Base64.EncodeLength | src/Util/Base64.js:8-22 | the text has four digits per started group of three bytes |
| Base64.DecodeQuad | src/Util/Base64.js:28-34 | four unpadded digits decode to three bytes |
| Base64.QuadRoundTrip | src/Util/Base64.js:8-34 | the four digits of three bytes decode to those bytes |
| Base64.PairRoundTrip | src/Util/Base64.js:8-34 | the padded group of two bytes decodes to those bytes |
| Base64.SingleRoundTrip | src/Util/Base64.js:8-34 | the padded group of one byte decodes to that byte |
| Base64.DecodeEncode | src/Util/Base64.js:8-34 | decoding an encoding gives the bytes back, for every byte string |
| Base64.Decode | src/Util/Base64.js:28-34 | accepted text is a multiple of four long and gives three bytes per group, less one or two for padding |
| Base64.DecodeEncodeSingle | src/Util/Base64.js:8-34 | one byte comes back from its encoding |
| Base64.DecodeEncodePair | src/Util/Base64.js:8-34 | two bytes come back from their encoding |
| Base64.DecodeEncodeGroup | src/Util/Base64.js:8-34 | three bytes come back from their encoding |
| Base64.DecodeEncodeMore | src/Util/Base64.js:8-34 | when the bytes after the first three round-trip, so do all of them |
| Base64.DecodeGroupFirst | src/Util/Base64.js:28-34 | a full group followed by more text decodes to its bytes followed by the rest's |
| Base64.DecodeOrThrow | src/Util/Base64.js:28-34 | the decoded bytes of padded base64; the model refuses any other text with a SyntaxError |
| Hex.Digit | src/Util/Hex.js:13 | `toString(16)` writes a lowercase hex digit |
| Hex.DigitValue | src/Util/Hex.js:30 | a hex digit of either case has a value below 16 |
| Hex.DigitValueOfDigit | src/Util/Hex.js:13 | reading back a written digit gives its value |
| Hex.ByteHex | src/Util/Hex.js:13 | `padStart(2, '0')` gives exactly two digits whose value is the byte, high digit first |
| Hex.Encoded | src/Util/Hex.js:11-15 | the text of a byte string has two characters per byte |
| Hex.Decoded | src/Util/Hex.js:27-31 | the buffer has `ceil(length / 2)` bytes |
| Hex.EncodedAt | src/Util/Hex.js:11-15 | byte `i` is written at characters `2i` and `2i + 1` |
| Hex.EncodedLowercase | src/Util/Hex.js:11-15 | only lowercase hex digits are written |
| Hex.DecodedAt | src/Util/Hex.js:27-31 | byte `i` is parsed from characters `2i` to `2i + 2`, or to the end for a lone last digit |
| Hex.DecodedOdd | src/Util/Hex.js:27-31 | with an odd number of digits the last byte is the value of the lone digit |
| Hex.DecodeEncode | src/Util/Hex.js:11-31 | decoding the encoding of any bytes gives them back |
| Hex.Encode | src/Util/Hex.js:11-15 | the loop builds the text of the whole input |
| Hex.Decode | src/Util/Hex.js:27-31 | the loop fills the buffer by index with the bytes of the text |
| MemoryFs.GetPathParts | src/FileSystem/MemoryFileSystem.js:16-27 | EACCES exactly for an address outside `file:///`; otherwise at least one segment, the split of the rest when there is no trailing slash |
| MemoryFs.ParentParts | src/FileSystem/MemoryFileSystem.js:37-39 | `pop()` leaves the segments that, with the last one, make the path |
| MemoryFs.Report | src/FileSystem/MemoryFileSystem.js:47-54 | a found entry is returned; a step through a file is ENOTDIR and a missing name ENOENT |
| MemoryFs.Find | src/FileSystem/MemoryFileSystem.js:34-58 | EACCES outside `file:///`; any other failure is ENOTDIR or ENOENT |
| MemoryFs.MkdirSpec | src/FileSystem/MemoryFileSystem.js:69-100 | the root stays a directory; EACCES outside `file:///`; a TypeError without options; a failed plain `mkdir` changes nothing |
| MemoryFs.ReadFileSpec | src/FileSystem/MemoryFileSystem.js:129-136 | succeeds exactly on a file, with its content; a lookup error is passed on |
| MemoryFs.StatSpec | src/FileSystem/MemoryFileSystem.js:148-156 | succeeds exactly when the lookup does; directory and file are opposite |
| MemoryFs.UnlinkSpec | src/FileSystem/MemoryFileSystem.js:161-170 | a failure changes nothing; the root stays a directory; EACCES outside `file:///` |
| MemoryFs.WriteFileSpec | src/FileSystem/MemoryFileSystem.js:182-196 | a failure changes nothing; EACCES outside `file:///` |
| MemoryFs.MakeDirs | src/FileSystem/MemoryFileSystem.js:71-88 | a successful recursive part leaves a directory at the end of the path |
| MemoryFs.MakeDirsStops | src/FileSystem/MemoryFileSystem.js:82-84 | after a segment names a file, the rest of the path changes nothing |
| MemoryFs.MemoryFileSystem.constructor | src/FileSystem/MemoryFileSystem.js:9 | a new store has an empty root directory |
| MemoryFs.MemoryFileSystem.FindEntry | src/FileSystem/MemoryFileSystem.js:34-58 | the walking loop returns what the specification `Find` gives, the parent when asked |
| MemoryFs.MemoryFileSystem.Chmod | src/FileSystem/MemoryFileSystem.js:63-64 | `chmod` always succeeds |
| MemoryFs.MemoryFileSystem.Mkdir | src/FileSystem/MemoryFileSystem.js:69-100 | the new root and the outcome are those of `MkdirSpec`, and the root stays a directory |
| MemoryFs.MemoryFileSystem.Readdir | src/FileSystem/MemoryFileSystem.js:105-124 | a lookup error is passed on, a file is ENOTDIR, and a directory gives its listing |
| MemoryFs.MemoryFileSystem.ReadFile | src/FileSystem/MemoryFileSystem.js:129-136 | the result is that of `ReadFileSpec` |
| MemoryFs.MemoryFileSystem.Stat | src/FileSystem/MemoryFileSystem.js:148-156 | the result is that of `StatSpec` |
| MemoryFs.MemoryFileSystem.Unlink | src/FileSystem/MemoryFileSystem.js:161-170 | the new root and the outcome are those of `UnlinkSpec`, and the root stays a directory |
| MemoryFs.MemoryFileSystem.WriteFile | src/FileSystem/MemoryFileSystem.js:182-196 | the new root and the outcome are those of `WriteFileSpec`, and the root stays a directory |
| MemoryFsProps.TrailingSlash | src/FileSystem/MemoryFileSystem.js:21-23 | `…/d/` has the same segments as `…/d` |
| MemoryFsProps.TrailingSlashFind | src/FileSystem/MemoryFileSystem.js:21-26 | so `…/d/` and `…/d` find the same entry or both fail |
| MemoryFsProps.RootAddress | src/FileSystem/MemoryFileSystem.js:16-27 | `file:///` is one empty segment and finds the root |
| MemoryFsProps.OutsideBase | src/FileSystem/MemoryFileSystem.js:18-20 | an address outside `file:///` is refused with EACCES by every operation, which changes nothing |
| MemoryFsProps.WriteThenRead | src/FileSystem/MemoryFileSystem.js:182-196 | after a successful write of a named entry, `readFile` returns the payload written |
| MemoryFsProps.WriteFileOutcome | src/FileSystem/MemoryFileSystem.js:182-196 | ENOENT when the parent is a file, EISDIR when the name is a directory, otherwise the parent gets the new file under the name |
| MemoryFsProps.WriteKeepsSiblings | src/FileSystem/MemoryFileSystem.js:195 | a write leaves every other entry of the parent as it was |
| MemoryFsProps.ReadFileKinds | src/FileSystem/MemoryFileSystem.js:129-156 | `readFile` succeeds exactly on files and gives EISDIR on directories; `stat` succeeds exactly when the lookup does |
| MemoryFsProps.MkdirPlain | src/FileSystem/MemoryFileSystem.js:90-99 | a plain `mkdir` gives ENOTDIR under a file and EEXIST on a taken name, else adds one empty directory |
| MemoryFsProps.MkdirThenStat | src/FileSystem/MemoryFileSystem.js:69-100 | after a successful `mkdir` the address is an empty directory |
| MemoryFsProps.MkdirWithoutOptions | src/FileSystem/MemoryFileSystem.js:71 | with no options, reading `recursive` throws a TypeError after the address check |
| MemoryFsProps.MakeDirsReuses | src/FileSystem/MemoryFileSystem.js:78-86 | existing directories along the path are reused and nothing changes |
| MemoryFsProps.MakeDirsCreates | src/FileSystem/MemoryFileSystem.js:79-81 | missing directories are created and the last one is new and empty |
| MemoryFsProps.MakeDirsBlocked | src/FileSystem/MemoryFileSystem.js:82-84 | a path through or onto a file stops the recursive part |
| MemoryFsProps.MakeDirsSucceeds | src/FileSystem/MemoryFileSystem.js:71-88 | the recursive part succeeds exactly when no segment of the path is a file |
| MemoryFsProps.MkdirRecursiveEndsExisting | src/FileSystem/MemoryFileSystem.js:71-97 | a recursive `mkdir` through directories creates the whole path and then still fails with EEXIST |
| MemoryFsProps.MkdirRecursiveBlocked | src/FileSystem/MemoryFileSystem.js:82-84 | a recursive `mkdir` whose path meets a file fails with EEXIST |
| MemoryFsProps.UnlinkOutcome | src/FileSystem/MemoryFileSystem.js:161-170 | ENOENT unless the parent is a directory holding the name; otherwise exactly that name goes |
| MemoryFsProps.UnlinkThenFind | src/FileSystem/MemoryFileSystem.js:161-170 | after a successful `unlink` of a named entry, looking it up is ENOENT |
| JsonFs.PathParts | src/FileSystem/JsonFileSystem.js:25-30 | EACCES exactly outside `file:///`; otherwise the split of the rest, trailing slash included |
| JsonFs.Find | src/FileSystem/JsonFileSystem.js:24-44 | the entry the keys lead to; a missing key or a step into a string is ENOENT |
| JsonFs.JsonFileSystem.constructor | src/FileSystem/JsonFileSystem.js:16-18 | the store holds the given snapshot, which nothing reassigns |
| JsonFs.JsonFileSystem.FindEntry | src/FileSystem/JsonFileSystem.js:24-44 | the lookup loop returns what `Find` gives |
| JsonFs.JsonFileSystem.Readdir | src/FileSystem/JsonFileSystem.js:63-90 | a lookup error is passed on, a string is ENOTDIR, an object gives one entry per key with its kind |
| JsonFs.JsonFileSystem.ReadFile | src/FileSystem/JsonFileSystem.js:95-102 | a lookup error is passed on, an object is EISDIR, and only a string can be read |
| JsonFs.JsonFileSystem.Stat | src/FileSystem/JsonFileSystem.js:114-127 | succeeds exactly when the lookup does; objects are directories and strings files |
| JsonFs.JsonFileSystem.Chmod | src/FileSystem/JsonFileSystem.js:49-51 | always refused with EPERM |
| JsonFs.JsonFileSystem.Mkdir | src/FileSystem/JsonFileSystem.js:56-58 | always refused with EPERM |
| JsonFs.JsonFileSystem.Unlink | src/FileSystem/JsonFileSystem.js:132-134 | always refused with EPERM |
| JsonFs.JsonFileSystem.WriteFile | src/FileSystem/JsonFileSystem.js:146-148 | always refused with EPERM |
| JsonFs.TrailingSlash | src/FileSystem/JsonFileSystem.js:29-43 | empty keys are skipped, so `…/d/` finds what `…/d` finds |
| LocalStorageFs.GetKey | src/FileSystem/LocalStorageFileSystem.js:34-36 | the item key is the prefix, a dash and the store identifier |
| LocalStorageFs.GetKeyInjective | src/FileSystem/LocalStorageFileSystem.js:34-36 | distinct stores save under distinct items |
| LocalStorageFs.MkdirOf | src/FileSystem/LocalStorageFileSystem.js:47-54 | EEXIST when the slashed key has a record, else a directory record under the slashed key |
| LocalStorageFs.ReadFileOf | src/FileSystem/LocalStorageFileSystem.js:67-77 | ENOENT without a record, EISDIR for a directory record, and bytes only as the base64 decoding of a file record |
| LocalStorageFs.StatOf | src/FileSystem/LocalStorageFileSystem.js:89-96 | succeeds exactly for a recorded key, reporting the record's type; ENOENT otherwise |
| LocalStorageFs.UnlinkOf | src/FileSystem/LocalStorageFileSystem.js:101-109 | ENOENT and no change without a record; otherwise exactly that key goes |
| LocalStorageFs.FileRecordOf | src/FileSystem/LocalStorageFileSystem.js:121-127 | a written record is a file holding the base64 text of the payload's bytes |
| LocalStorageFs.LocalStorageFileSystem.constructor | src/FileSystem/LocalStorageFileSystem.js:17-20 | the dictionary is the one saved under the store's item, or empty |
| LocalStorageFs.LocalStorageFileSystem.SaveStates | src/FileSystem/LocalStorageFileSystem.js:25-27 | the whole dictionary is written under the store's item and nothing else changes |
| LocalStorageFs.LocalStorageFileSystem.Chmod | src/FileSystem/LocalStorageFileSystem.js:41-42 | `chmod` always succeeds |
| LocalStorageFs.LocalStorageFileSystem.Mkdir | src/FileSystem/LocalStorageFileSystem.js:47-54 | the dictionary and outcome of `MkdirOf`; saved only on success |
| LocalStorageFs.LocalStorageFileSystem.Readdir | src/FileSystem/LocalStorageFileSystem.js:59-62 | always an empty listing |
| LocalStorageFs.LocalStorageFileSystem.ReadFile | src/FileSystem/LocalStorageFileSystem.js:67-77 | the result of `ReadFileOf` |
| LocalStorageFs.LocalStorageFileSystem.Stat | src/FileSystem/LocalStorageFileSystem.js:89-96 | the result of `StatOf` |
| LocalStorageFs.LocalStorageFileSystem.Unlink | src/FileSystem/LocalStorageFileSystem.js:101-109 | the dictionary and outcome of `UnlinkOf`; saved only on success |
| LocalStorageFs.LocalStorageFileSystem.WriteFile | src/FileSystem/LocalStorageFileSystem.js:121-129 | always succeeds; the key now holds the payload's file record, and the dictionary is saved |
| LocalStorageFs.WriteThenRead | src/FileSystem/LocalStorageFileSystem.js:121-127 | a written payload is read back as its bytes, UTF-8 for a string |
| LocalStorageFs.WriteOverDirectory | src/FileSystem/LocalStorageFileSystem.js:121-127 | writing over a directory record turns it into a file |
| LocalStorageFs.MkdirKeyHasSlash | src/FileSystem/LocalStorageFileSystem.js:47-52 | after `mkdir("…/d")` the record is under `…/d/`, and `…/d` is still ENOENT |
| LocalStorageFs.UnlinkKeepsOthers | src/FileSystem/LocalStorageFileSystem.js:101-109 | `unlink` leaves what every other key reads and stats |
| LocalStorageFs.MkdirTwice | src/FileSystem/LocalStorageFileSystem.js:47-54 | a second `mkdir` of the same directory is EEXIST and changes nothing |
| FsaFs.GetDirectoryHandle | src/FileSystem/FSAFileSystem.js:104 | a child directory is found exactly for a valid name holding a directory |
| FsaFs.RemovableEntry | src/FileSystem/FSAFileSystem.js:223 | `removeEntry` succeeds exactly for a valid present name that is an empty directory or an unlocked file |
| FsaFs.WritableFile | src/FileSystem/FSAFileSystem.js:244-253 | a file handle and writer are obtained exactly for a valid name that is absent or an unlocked file |
| FsaFs.NonEmpty | src/FileSystem/FSAFileSystem.js:85 | the filter keeps the non-empty pieces, and all of them when none is empty |
| FsaFs.SplitPath | src/FileSystem/FSAFileSystem.js:78-86 | EACCES exactly without `file://`; otherwise non-empty segments without `/` |
| FsaFs.Descend | src/FileSystem/FSAFileSystem.js:98-108 | the lookups reach a directory only along valid names, and it is where the walk ends |
| FsaFs.DescendStops | src/FileSystem/FSAFileSystem.js:103-107 | a failed lookup ends the descent |
| FsaFs.Resolve | src/FileSystem/FSAFileSystem.js:93-120 | resolving the parent gives a directory |
| FsaFs.MakeAll | src/FileSystem/FSAFileSystem.js:133-146 | a successful loop leaves a directory at the end of a path of valid names |
| FsaFs.MakeAllStops | src/FileSystem/FSAFileSystem.js:140-144 | a segment that cannot be made ends the loop |
| FsaFs.MkdirSpec | src/FileSystem/FSAFileSystem.js:131-156 | the root stays a directory; EACCES without `file://`; any other failure is EEXIST |
| FsaFs.UnlinkSpec | src/FileSystem/FSAFileSystem.js:219-227 | a failure changes nothing; the root stays a directory; EACCES without `file://` |
| FsaFs.WriteFileSpec | src/FileSystem/FSAFileSystem.js:239-257 | a failure changes nothing; EACCES without `file://` |
| FsaFs.ReadFileSpec | src/FileSystem/FSAFileSystem.js:183-196 | succeeds exactly on a file, with its bytes; a resolve error is passed on |
| FsaFs.StatSpec | src/FileSystem/FSAFileSystem.js:208-214 | succeeds exactly when resolving does; directory and file are opposite |
| FsaFs.FSAFileSystem.constructor | src/FileSystem/FSAFileSystem.js:70-72 | the store holds the given root directory |
| FsaFs.FSAFileSystem.ResolveEntry | src/FileSystem/FSAFileSystem.js:93-120 | the lookup loop returns what `Resolve` gives |
| FsaFs.FSAFileSystem.Chmod | src/FileSystem/FSAFileSystem.js:125-126 | `chmod` always succeeds |
| FsaFs.FSAFileSystem.Mkdir | src/FileSystem/FSAFileSystem.js:131-156 | the new root and outcome of `MkdirSpec`; the root stays a directory |
| FsaFs.FSAFileSystem.MakeDirectories | src/FileSystem/FSAFileSystem.js:134-146 | the loop over the segments ends with the tree and the flag of `MakeAll`: every segment made or found, or stopped at the first that cannot be |
| FsaFs.FSAFileSystem.Readdir | src/FileSystem/FSAFileSystem.js:161-178 | a resolve error is passed on, a file is ENOTDIR, a directory gives its listing |
| FsaFs.FSAFileSystem.ReadFile | src/FileSystem/FSAFileSystem.js:183-196 | the result of `ReadFileSpec` |
| FsaFs.FSAFileSystem.Stat | src/FileSystem/FSAFileSystem.js:208-214 | the result of `StatSpec` |
| FsaFs.FSAFileSystem.Unlink | src/FileSystem/FSAFileSystem.js:219-227 | the new root and outcome of `UnlinkSpec`; the root stays a directory |
| FsaFs.FSAFileSystem.WriteFile | src/FileSystem/FSAFileSystem.js:239-257 | the new root and outcome of `WriteFileSpec`; the root stays a directory |
| FsaFs.RootName | src/FileSystem/FSAFileSystem.js:62 | `spyglass_` and the identifier with every `/` made `_`, so the name has no `/` |
| FsaFs.Create | src/FileSystem/FSAFileSystem.js:60-65 | on success the origin directory holds the store's root directory under its name |
| FsaFs.SupportedIffGranted | src/FileSystem/FSAFileSystem.js:26-54 | support is reported exactly when `queryPermission` answers `granted`; no `getDirectory` means false; only a rejected query throws |
| FsaFs.CheckBrowserSupport | src/FileSystem/FSAFileSystem.js:26-54 | a rejected `getDirectory` or an answer other than `granted` gives false; the only error is the rejection of `queryPermission` |
| FsaFs.Support.constructor | src/FileSystem/FSAFileSystem.js:9 | the cache starts empty (`null`) |
| FsaFs.Support.IsSupported | src/FileSystem/FSAFileSystem.js:16-21 | a cached answer is returned unchanged; otherwise the probe's answer is returned and cached when it did not throw |
| FsaFsProps.DescendWalk | src/FileSystem/FSAFileSystem.js:98-108 | over valid names, the lookups reach a directory exactly when the walk does |
| FsaFsProps.RootAddress | src/FileSystem/FSAFileSystem.js:93-120 | `file:///` has no segments; its parent is the root, but resolving it is ENOENT |
| FsaFsProps.WriteRootAddress | src/FileSystem/FSAFileSystem.js:240-244 | writing `file:///` creates a file named "undefined" in the root |
| FsaFsProps.WriteThenRead | src/FileSystem/FSAFileSystem.js:239-257 | after a successful write, `readFile` returns the bytes written and `stat` says file |
| FsaFsProps.WrittenEntry | src/FileSystem/FSAFileSystem.js:239-257 | after a successful write, the address resolves to an unlocked file with those bytes |
| FsaFsProps.ParentAfterWrite | src/FileSystem/FSAFileSystem.js:240-244 | the parent stays reachable and holds the written entry |
| FsaFsProps.WriteKeepsSiblings | src/FileSystem/FSAFileSystem.js:244 | a write leaves every other entry of the parent as it was |
| FsaFsProps.WriteFileRefusals | src/FileSystem/FSAFileSystem.js:243-253 | an invalid name or a directory is EEXIST, a locked file EPERM, and nothing changes |
| FsaFsProps.MakeAllReuses | src/FileSystem/FSAFileSystem.js:135-145 | existing directories are reused and nothing changes |
| FsaFsProps.MakeAllCreates | src/FileSystem/FSAFileSystem.js:141 | missing directories are created and the last is new and empty |
| FsaFsProps.MakeAllBlocked | src/FileSystem/FSAFileSystem.js:136-144 | a path through or onto a file cannot be made |
| FsaFsProps.MakeAllSucceeds | src/FileSystem/FSAFileSystem.js:133-146 | the loop succeeds exactly when every name is valid and no segment is a file |
| FsaFsProps.MkdirExisting | src/FileSystem/FSAFileSystem.js:131-146 | `mkdir` of an existing directory succeeds and changes nothing |
| FsaFsProps.MkdirThenStat | src/FileSystem/FSAFileSystem.js:131-146 | after a successful `mkdir` of a named path, `stat` says directory |
| FsaFsProps.ResolveWalked | src/FileSystem/FSAFileSystem.js:93-120 | a path of valid names that walks to a directory resolves to it |
| FsaFsProps.UnlinkThenStat | src/FileSystem/FSAFileSystem.js:219-227 | after a successful `unlink`, `stat` is ENOENT |
| FsaFsProps.UnlinkNonEmpty | src/FileSystem/FSAFileSystem.js:222-226 | `unlink` of a directory holding entries is ENOENT and changes nothing |
| FsaFsProps.ReadFileKinds | src/FileSystem/FSAFileSystem.js:161-214 | `readFile` succeeds exactly on files and gives EISDIR on directories; `stat` succeeds exactly when resolving does |
| FsaFsProps.OutsidePrefix | src/FileSystem/FSAFileSystem.js:81-83 | an address without `file://` is refused with EACCES by every operation, which changes nothing |
| Watcher.On | src/FileSystem/DummyFsWatcher.js:2-7 | a `ready` listener is called once at once; other events call nobody; the watcher is returned |
| Watcher.Once | src/FileSystem/DummyFsWatcher.js:8-13 | at most the given listener is called, and the watcher is returned |
| Watcher.OnceIsOn | src/FileSystem/DummyFsWatcher.js:2-13 | `once` cannot be told apart from `on` |
| Watcher.Close | src/FileSystem/DummyFsWatcher.js:14 | `close` changes nothing |
| MappedEntry.NewEntry | src/FileSystem/Mapped/MappedFileSystemEntry.js:11-22 | both prefixes end with `/`; one that did already is kept |
| MappedEntry.Map | src/FileSystem/Mapped/MappedFileSystemEntry.js:30-42 | the source prefix without its slash maps to the target prefix; addresses outside the prefix map to nothing; results start with the target |
| MappedEntry.GetFileSystemOfNew | src/FileSystem/Mapped/MappedFileSystemEntry.js:47-49 | a binding's store is the one it was built with |
| MappedEntry.MapSuffix | src/FileSystem/Mapped/MappedFileSystemEntry.js:37-41 | `map(source + rest)` is `target + rest` |
| MappedEntry.MapDefined | src/FileSystem/Mapped/MappedFileSystemEntry.js:30-42 | a binding maps an address exactly when it is under the source prefix or is that prefix without its slash |
| MappedEntry.MapNonEmpty | src/FileSystem/Mapped/MappedFileSystemEntry.js:30-42 | what a constructed binding maps to is never empty |
| MappedFs.Route | src/FileSystem/MappedFileSystem.js:41-50 | the only failure is EACCES for the address |
| MappedFs.Without | src/FileSystem/MappedFileSystem.js:32-35 | exactly the bindings with another source prefix remain |
| MappedFs.MkdirOn | src/FileSystem/MappedFileSystem.js:63-66 | the chosen store's `mkdir` without options, and every store keeps its invariant |
| MappedFs.UnlinkOn | src/FileSystem/MappedFileSystem.js:102-105 | the chosen store's `unlink`, and every store keeps its invariant |
| MappedFs.WriteFileOn | src/FileSystem/MappedFileSystem.js:117-120 | the chosen store's `writeFile`, and every store keeps its invariant |
| MappedFs.MappedFileSystem.constructor | src/FileSystem/MappedFileSystem.js:13-15 | the router holds the given bindings |
| MappedFs.MappedFileSystem.Mount | src/FileSystem/MappedFileSystem.js:23-26 | one constructed binding is appended and the router is returned |
| MappedFs.MappedFileSystem.Umount | src/FileSystem/MappedFileSystem.js:32-35 | the bindings become `Without` of the old ones, and the router is returned |
| MappedFs.MappedFileSystem.FindFileSystem | src/FileSystem/MappedFileSystem.js:41-50 | the loop returns what `Route` gives |
| MappedFs.MappedFileSystem.Chmod | src/FileSystem/MappedFileSystem.js:55-58 | EACCES without a route; otherwise the routed store's answer, EPERM from the snapshot |
| MappedFs.MappedFileSystem.Mkdir | src/FileSystem/MappedFileSystem.js:63-66 | EACCES without a route; otherwise the routed store's `mkdir` of the mapped address, with no options |
| MappedFs.MappedFileSystem.Readdir | src/FileSystem/MappedFileSystem.js:71-74 | EACCES without a route; otherwise the routed store's listing of the mapped address |
| MappedFs.MappedFileSystem.ReadFile | src/FileSystem/MappedFileSystem.js:79-82 | EACCES without a route; otherwise the routed store's contents of the mapped address |
| MappedFs.MappedFileSystem.Stat | src/FileSystem/MappedFileSystem.js:94-97 | EACCES without a route; otherwise the routed store's stats of the mapped address |
| MappedFs.MappedFileSystem.Unlink | src/FileSystem/MappedFileSystem.js:102-105 | EACCES without a route; otherwise the routed store's `unlink` of the mapped address |
| MappedFs.MappedFileSystem.WriteFile | src/FileSystem/MappedFileSystem.js:117-120 | EACCES without a route; otherwise the routed store's `writeFile` of the mapped address |
| MappedFs.MappedFileSystem.Watch | src/FileSystem/MappedFileSystem.js:110-112 | a no-op watcher, whatever the addresses |
| MappedFs.MappedFileSystem.ShowFile | src/FileSystem/MappedFileSystem.js:87-89 | always refused |
| MappedFs.RouteChoice | src/FileSystem/MappedFileSystem.js:42-45 | the store taken is the store of one of the bindings |
| MappedFsProps.MapsIffMap | src/FileSystem/MappedFileSystem.js:43-44 | for constructed bindings, the truthiness test takes exactly the addresses `map` maps |
| MappedFsProps.RouteFirstMatch | src/FileSystem/MappedFileSystem.js:42-46 | the first binding in order that maps the address is taken, with its mapped address |
| MappedFsProps.RouteDefined | src/FileSystem/MappedFileSystem.js:41-50 | the router answers exactly when some binding maps the address, and is EACCES otherwise |
| MappedFsProps.MountKeepsRoutes | src/FileSystem/MappedFileSystem.js:23-26 | a later mount never takes an address an earlier binding maps |
| MappedFsProps.FirstMatchShadows | src/FileSystem/MappedFileSystem.js:42-46 | first match, not longest prefix: `file:///x/` mounted first takes `file:///x/y/z` |
| MappedFsProps.WithoutAppend | src/FileSystem/MappedFileSystem.js:33 | the filter keeps order and works piece by piece |
| MappedFsProps.UmountUnknown | src/FileSystem/MappedFileSystem.js:33 | unmounting a prefix no binding has changes nothing |
| MappedFsProps.UmountNeedsSlash | src/FileSystem/MappedFileSystem.js:33 | `umount` of a prefix without trailing slash removes nothing, since stored prefixes end with `/` |
| MappedFsProps.UmountRemoves | src/FileSystem/MappedFileSystem.js:32-35 | after `umount(s)` no binding with source `s` is taken |
| ListenerSet.Added | src/Externals/EventEmitter/EventListenerSet.js:30 | `Set.add` keeps a member in place and appends a new one, without duplicates |
| ListenerSet.Kept | src/Externals/EventEmitter/EventListenerSet.js:49 | deleting listeners never lengthens the list |
| ListenerSet.OnSpec | src/Externals/EventEmitter/EventListenerSet.js:29-32 | the listener is a member afterwards, a present one keeps its place, and `#once` is unchanged |
| ListenerSet.OnceSpec | src/Externals/EventEmitter/EventListenerSet.js:38-42 | likewise, and the listener is in `#once`, which otherwise is unchanged |
| ListenerSet.OffSpec | src/Externals/EventEmitter/EventListenerSet.js:48-52 | the listener is in neither set afterwards; every other listener's membership is kept |
| ListenerSet.EmitSpec | src/Externals/EventEmitter/EventListenerSet.js:9-23 | true exactly with listeners; all of them are called in order; the `once` ones leave and `#once` empties |
| ListenerSet.Preserved | src/Externals/EventEmitter/EventListenerSet.js:9-52 | every operation keeps each listener once and `#once` within `#all` |
| ListenerSet.EmitNone | src/Externals/EventEmitter/EventListenerSet.js:10-12 | with no listener, `emit` calls nobody, returns false and changes nothing |
| ListenerSet.EmitCalls | src/Externals/EventEmitter/EventListenerSet.js:14-22 | otherwise each listener is called once in insertion order, `emit` returns true, the `once` ones leave and `#once` is empty |
| ListenerSet.AddAgain | src/Externals/EventEmitter/EventListenerSet.js:29-42 | adding a present listener keeps its one place |
| ListenerSet.OnceThenOn | src/Externals/EventEmitter/EventListenerSet.js:29-42 | `once(l)` then `on(l)`: the next `emit` still calls `l` and removes it |
| ListenerSet.OffRemoves | src/Externals/EventEmitter/EventListenerSet.js:48-52 | `off(l)` removes `l` from both sets and keeps the rest in order |
| ListenerSet.EmitAllOnce | src/Externals/EventEmitter/EventListenerSet.js:9-23 | when every listener was added with `once`, a second `emit` returns false |
| ListenerSet.EventListenerSet.constructor | src/Externals/EventEmitter/EventListenerSet.js:2-3 | a new set has no listeners |
| ListenerSet.EventListenerSet.Emit | src/Externals/EventEmitter/EventListenerSet.js:9-23 | the loop's calls, result and final state are those of `EmitSpec` |
| ListenerSet.EventListenerSet.Visit | src/Externals/EventEmitter/EventListenerSet.js:15-19 | one turn: the listener is dropped from both sets exactly when it was a `once` listener |
| ListenerSet.EventListenerSet.On | src/Externals/EventEmitter/EventListenerSet.js:29-32 | the state of `OnSpec`, and the set is returned |
| ListenerSet.EventListenerSet.Once | src/Externals/EventEmitter/EventListenerSet.js:38-42 | the state of `OnceSpec`, and the set is returned |
| ListenerSet.EventListenerSet.Off | src/Externals/EventEmitter/EventListenerSet.js:48-52 | the state of `OffSpec`, and the set is returned |
| Emitter.OnEvent | src/Externals/EventEmitter/EventEmitter.js:11-18 | the event's set, created if missing, registers the listener; no other event changes |
| Emitter.OnceEvent | src/Externals/EventEmitter/EventEmitter.js:25-32 | likewise with `once` |
| Emitter.OffEvent | src/Externals/EventEmitter/EventEmitter.js:39-45 | nothing for an unknown event and no set is created; otherwise that set's `off` |
| Emitter.EmitEvent | src/Externals/EventEmitter/EventEmitter.js:52-58 | false and no calls for an unknown event; otherwise exactly that set's `emit` |
| Emitter.EventsPreserved | src/Externals/EventEmitter/EventEmitter.js:11-58 | every operation keeps every set well formed |
| Emitter.EmitAfterOff | src/Externals/EventEmitter/EventEmitter.js:39-58 | once the only listener is off, `emit` returns false and calls nobody |
| Emitter.OnThenEmit | src/Externals/EventEmitter/EventEmitter.js:11-58 | a listener added with `on` is called by the next `emit` and stays |
| Emitter.OnceThenEmitTwice | src/Externals/EventEmitter/EventEmitter.js:25-58 | a `once` listener is called by the next `emit` only; the one after returns false |
| Emitter.EventEmitter.constructor | src/Externals/EventEmitter/EventEmitter.js:4 | a new emitter has no events |
| Emitter.EventEmitter.On | src/Externals/EventEmitter/EventEmitter.js:11-18 | the states of `OnEvent`, and the emitter is returned |
| Emitter.EventEmitter.Once | src/Externals/EventEmitter/EventEmitter.js:25-32 | the states of `OnceEvent`, and the emitter is returned |
| Emitter.EventEmitter.Delegate | src/Externals/EventEmitter/EventEmitter.js:16 | the existing set of the event registers the listener and no other set changes |
| Emitter.EventEmitter.Off | src/Externals/EventEmitter/EventEmitter.js:39-45 | the states of `OffEvent`, and the emitter is returned |
| Emitter.EventEmitter.Emit | src/Externals/EventEmitter/EventEmitter.js:52-58 | the states, calls and result of `EmitEvent` |
| Decorations.DecorationsCache.constructor | src/DecorationsCache.js:4-5 | a new cache has no version and no decorations |
| Decorations.DecorationsCache.Set | src/DecorationsCache.js:12-16 | afterwards `has` holds for that version only and `get` gives the set; the cache is returned |
| Decorations.DecorationsCache.Has | src/DecorationsCache.js:22-24 | strict equality: `has(null)` exactly when no version is stored, otherwise exactly the stored version |
| Decorations.DecorationsCache.Flush | src/DecorationsCache.js:36-40 | back to the new state: only `has(null)` holds and `get` gives `null` |
| ColorTheme.FindHighlightTag | src/Components/colorTokenTheme.js:43-53 | the first style, in order, whose tag is or includes the tag; nothing when none does |
| ColorTheme.ColorFor | src/Components/colorTokenTheme.js:26-29 | a colour exactly when the style found gives a non-empty one, and it is that colour |
| ColorTheme.Rules | src/Components/colorTokenTheme.js:24-32 | every rule has a non-empty colour: a style without one adds no rule |
| ColorTheme.SelectorInjective | src/Components/colorTokenTheme.js:31 | different token types get different selectors |
| ColorTheme.RuleOf | src/Components/colorTokenTheme.js:25-32 | a mapping entry gets a rule exactly when its tag's style gives a colour, and the rule is that colour |
| ColorTheme.NoRule | src/Components/colorTokenTheme.js:25-32 | a type the mapping does not list gets no rule |
| ColorTheme.BuildRules | src/Components/colorTokenTheme.js:24-32 | the loop builds the rules of `Rules` |
| ColorTheme.GetColorTokenTheme | src/Components/colorTokenTheme.js:4-35 | the theme is the rules for the token mapping |
| ColorTheme.MappingKeysDistinct | src/Components/colorTokenTheme.js:5-22 | the sixteen token types are distinct |
| ColorTheme.ThemeRule | src/Components/colorTokenTheme.js:4-35 | a listed type has a rule exactly when its tag's style gives a colour, and the rule is that colour |
| ColorTheme.ThemeUnlisted | src/Components/colorTokenTheme.js:4-35 | unlisted types get no rule |
| ColorTheme.SharedTypeName | src/Components/colorTokenTheme.js:16-21 | `type`, `struct` and `vector` share one tag, so they get the same rule |
| ColorTheme.SharedPropertyName | src/Components/colorTokenTheme.js:8-14 | `enumMember` and `property` get the same rule |
| Dependency.BaseUri | src/Dependency/BundledDependency.js:21-23 | the store's root `file:///` |
| Dependency.MountPoint | src/Dependency/BundledDependency.js:28-30 | `file:///`, the identifier, then `/` |
| Dependency.DependencyName | src/Dependency/BundledDependency.js:35-38 | `@` and the identifier |
| Dependency.Initializer | src/Dependency/BundledDependency.js:43-48 | the initializer registers the mount point under the dependency key at start depth 0 |
| Dependency.NamesDistinguish | src/Dependency/BundledDependency.js:28-38 | two dependencies share a key, or a mount point, exactly when they share an identifier |
| Dependency.MountPointKept | src/Dependency/BundledDependency.js:28-30 | the binding keeps the mount point and the base as given |
| Dependency.DependencyAddress | src/Dependency/BundledDependency.js:21-30 | the binding sends `file:///<id>/<rest>` to `file:///<rest>` |
| Build.CannotCreate | build.js:32-37 | assigning a key on a string throws a TypeError |
| Build.Descend | build.js:28-36 | after the loop the cursor is a truthy value that the keys lead to |
| Build.Insert | build.js:25-38 | the object stays an object |
| Build.InsertFile | build.js:25-38 | the loop and the last assignment give the object and outcome of `Insert` |
| Build.DescendStops | build.js:32-37 | once an assignment has failed, the remaining keys change nothing |
| Build.DescendReuses | build.js:32-35 | objects already on the path are reused and nothing changes |
| Build.DescendCreates | build.js:32-34 | missing keys become objects and the last is new and empty |
| Build.InsertPlaces | build.js:25-38 | the content goes under the last key of the innermost object, whose other keys stay |
| Build.InsertThenFind | build.js:25-38 | the snapshot store finds the inserted content at `file:///<path>` |
| Build.InsertThenRead | build.js:19 | the snapshot store reads back the bytes whose base64 text was inserted |
| Build.BuildSpec | build.js:14-20 | the built snapshot is an object |
| Build.Files | build.js:16-18 | only entries of type `file` are kept, in order |
| Build.BuildDependency | build.js:14-20 | the loop gives the snapshot and outcome of `BuildSpec` |
| Build.BuildStops | build.js:14-20 | after a failed insertion, later entries are not looked at |
| Build.BuildIgnoresNonFiles | build.js:16-18 | entries that are not files make no difference |
| PluginOptions.Project.constructor | src/SpyglassPluginOptions.js:50 | a project options object holding the given fields |
| PluginOptions.Project.IncludeAll | src/SpyglassPluginOptions.js:58-62 | the initializers become `Included` of the old ones and nothing else changes |
| PluginOptions.Project.Fill | src/SpyglassPluginOptions.js:48-68 | the project becomes `Filled` of its old state |
| PluginOptions.SpyglassOptions.constructor | src/SpyglassPluginOptions.js:47 | the Spyglass options hold the given fields |
| PluginOptions.SpyglassOptions.Complete | src/SpyglassPluginOptions.js:47-71 | a project is filled in place, or a fresh filled one is made; the logger defaults to the no-op one |
| PluginOptions.Included | src/SpyglassPluginOptions.js:58-62 | at most the new initializers are appended |
| PluginOptions.Filled | src/SpyglassPluginOptions.js:48-68 | externals, initializers and configuration are set, given ones kept; cache root and project roots untouched |
| PluginOptions.IncludedPrefix | src/SpyglassPluginOptions.js:58-62 | the existing initializers stay first and in order |
| PluginOptions.IncludedMembers | src/SpyglassPluginOptions.js:58-62 | afterwards every default is present, and nothing else was added |
| PluginOptions.IncludedPresent | src/SpyglassPluginOptions.js:59 | when every default is there, the list is unchanged |
| PluginOptions.IncludedIdempotent | src/SpyglassPluginOptions.js:58-62 | including twice adds nothing more |
| PluginOptions.IncludedNoDuplicates | src/SpyglassPluginOptions.js:58-62 | a list without duplicates stays so |
| PluginOptions.FilledInitializers | src/SpyglassPluginOptions.js:55-62 | both Spyglass initializers appear once each, after the caller's, whose order is kept |
| PluginOptions.FilledAppends | src/SpyglassPluginOptions.js:58-62 | a list with neither gets mcdoc, then Java Edition, appended |
| PluginOptions.FilledIdempotent | src/SpyglassPluginOptions.js:48-68 | completing twice changes nothing the second time |
| PluginOptions.SpyglassPluginOptions.constructor | src/SpyglassPluginOptions.js:27-33 | no Spyglass options and no dependencies before `load` |
| PluginOptions.SpyglassPluginOptions.Load | src/SpyglassPluginOptions.js:39-75 | each field is the given one or its default, the Spyglass options are completed in place or freshly made, and the options are returned |
| RangeMapping.MapRangeAppend | src/SpyglassPlugin.js:266-282 | moving through two lists of changes is moving through the first, then the second |
| RangeMapping.MapChange | src/SpyglassPlugin.js:267-281 | each change leaves the range, shifts it by the change in length, collapses it to `(0, 0)`, or keeps its start and shortens its end; an empty change at a point does nothing |
| RangeMapping.MapRange | src/SpyglassPlugin.js:265-285 | changes that are all empty points leave the range where it is |
| RangeMapping.MapRangeNone | src/SpyglassPlugin.js:265-285 | with no changes the range is unchanged |
| RangeMapping.ShiftKeepsWidth | src/SpyglassPlugin.js:267-271 | a change ending at or before the start moves both ends by the length change |
| RangeMapping.InsideCollapses | src/SpyglassPlugin.js:273-277 | a range inside the replaced text collapses to `(0, 0)` |
| RangeMapping.EndClamped | src/SpyglassPlugin.js:279-281 | an end in the replaced text is clamped to the replacement's end and never grows |
| RangeMapping.BeforeUntouched | src/SpyglassPlugin.js:265-285 | a well-formed range ending before a change is untouched |
| RangeMapping.BeforeAllUntouched | src/SpyglassPlugin.js:265-285 | the same for any number of such changes |
| RangeMapping.InsertionsAccumulate | src/SpyglassPlugin.js:266-271 | each change applies to the values the previous one left: insertions of `n` then `m` move by `n + m` |
| Plugin.SeverityName | src/SpyglassPlugin.js:207 | `error` exactly for severity 3, `warning` otherwise |
| Plugin.HintOf | src/SpyglassPlugin.js:195-209 | no hint exactly when the moved range ends before it starts; otherwise that range, the message and the severity name |
| Plugin.Hints | src/SpyglassPlugin.js:186-211 | at most one hint per error, each with `from <= to` |
| Plugin.MarkOf | src/SpyglassPlugin.js:229-238 | no mark exactly when the moved range is empty or reversed; otherwise that range and the token type |
| Plugin.Marks | src/SpyglassPlugin.js:217-241 | at most one mark per token, each over a non-empty range |
| Plugin.StartInitialize | src/SpyglassPlugin.js:100-105 | an uninitialised plugin moves to initialising; any other state is kept; nothing else changes |
| Plugin.InitializeDone | src/SpyglassPlugin.js:106-118 | the plugin is initialised and nothing else changes |
| Plugin.Update | src/SpyglassPlugin.js:125-139 | the version never changes; when initialised and the text changed, the changes are appended and a sync scheduled; otherwise nothing is recorded |
| Plugin.Synced | src/SpyglassPlugin.js:141-152 | the next version, an empty record, no sync pending, the same initialisation state |
| Plugin.SpyglassPlugin.IsLintRefreshRequired | src/SpyglassPlugin.js:160-167 | never without a document; always for a document when nothing was linted yet |
| Plugin.DependencyBindings | src/SpyglassPlugin.js:83-87 | one binding per dependency |
| Plugin.Bindings | src/SpyglassPlugin.js:79-87 | two fixed bindings plus one per dependency |
| Plugin.Names | src/SpyglassPlugin.js:84 | one dependency key per dependency |
| Plugin.Registrations | src/SpyglassPlugin.js:85 | one initializer per dependency |
| Plugin.MountDependencies | src/SpyglassPlugin.js:83-87 | each dependency's binding, initializer and key are appended in order; nothing else in the project changes |
| Plugin.DependencyStep | src/SpyglassPlugin.js:83-87 | one dependency more appends one key, one initializer and one binding |
| Plugin.AddDependency | src/SpyglassPlugin.js:84-86 | one turn appends that dependency's key, initializer and binding |
| Plugin.CreateSpyglassService | src/SpyglassPlugin.js:71-94 | a fresh router with the cache, root and dependency bindings, and the project options of `Serviced` |
| Plugin.FileUriAsWritten | src/SpyglassPlugin.js:44 | the root URI followed by the `filePath` of the object passed in |
| Plugin.FileUri | src/SpyglassPlugin.js:44 | the root URI followed by the loaded `filePath` |
| Plugin.SpyglassPlugin.constructor | src/SpyglassPlugin.js:41-65 | options loaded with their defaults; the document address is `FileUriAsWritten` of the object passed in, so `file:///root/undefined` without a path; router and project prepared; uninitialised with nothing recorded |
| Plugin.SpyglassPlugin.MapRangeToChanges | src/SpyglassPlugin.js:265-285 | the loop gives `MapRange` of the recorded changes |
| Plugin.SpyglassPlugin.Lint | src/SpyglassPlugin.js:186-211 | no hints for an unknown document; else the version is noted and the hints are `Hints`; no refresh is then required |
| Plugin.SpyglassPlugin.Decorate | src/SpyglassPlugin.js:217-241 | the previous set for an unknown document, the cached set on a hit, else `Marks`, cached under the version |
| Plugin.SpyglassPlugin.Initialize | src/SpyglassPlugin.js:100-105 | starts exactly when uninitialised, moving to initialising |
| Plugin.SpyglassPlugin.FinishInitialize | src/SpyglassPlugin.js:106-118 | after the awaited calls the plugin is initialised |
| Plugin.SpyglassPlugin.HandleEditorUpdate | src/SpyglassPlugin.js:125-153 | a sync is scheduled exactly when initialised and the text changed, and then the cache is flushed |
| Plugin.SpyglassPlugin.Sync | src/SpyglassPlugin.js:141-152 | the version is incremented and the record cleared |
| PluginProps.HintsWellFormed | src/SpyglassPlugin.js:195-209 | every hint has `from <= to` and is an error or a warning; no error gives two hints |
| PluginProps.HintsUnedited | src/SpyglassPlugin.js:195-209 | with no edits, each well-formed error gives one hint over its own range, in order, with its message and severity |
| PluginProps.MarksWellFormed | src/SpyglassPlugin.js:229-238 | every mark covers a non-empty range; no token gives two marks |
| PluginProps.MarksUnedited | src/SpyglassPlugin.js:229-238 | with no edits, each non-empty token gives one mark of its type over its range, in order |
| PluginProps.MarksSkipEmpty | src/SpyglassPlugin.js:231-233 | a token whose moved range is empty adds nothing |
| PluginProps.ReachableKept | src/SpyglassPlugin.js:100-153 | every step keeps the plugin in a reachable state |
| PluginProps.InitializeOnce | src/SpyglassPlugin.js:101-105 | initialisation starts at most once and never goes back; updates do not change the version |
| PluginProps.NothingRecordedBeforeReady | src/SpyglassPlugin.js:126-129 | before initialisation, an update records and schedules nothing |
| PluginProps.UpdatesCompose | src/SpyglassPlugin.js:135 | two recorded updates move a range through the older record, then each update's changes |
| PluginProps.SyncForgets | src/SpyglassPlugin.js:144-149 | after a sync, the version is the next one and ranges are no longer moved |
| PluginProps.NamesAt | src/SpyglassPlugin.js:84 | key `k` is dependency `k`'s |
| PluginProps.RegistrationsAt | src/SpyglassPlugin.js:85 | initializer `k` is dependency `k`'s |
| PluginProps.DependencyBindingsAt | src/SpyglassPlugin.js:86 | binding `k` is dependency `k`'s mount point onto its store's root |
| PluginProps.ServicedLists | src/SpyglassPlugin.js:71-94 | loaded initializers first, then one per dependency; each key after the configuration's own |
| PluginProps.MountPointsApart | src/Dependency/BundledDependency.js:28-30 | mount points of different slash-free names share no address |
| PluginProps.NotTaken | src/FileSystem/Mapped/MappedFileSystemEntry.js:30-42 | one name's binding takes no address under another name's mount point |
| PluginProps.FixedPrefixes | src/SpyglassPlugin.js:21-22 | the cache and root URIs are mount points of slash-free names, stored as given |
| PluginProps.BindingsHead | src/SpyglassPlugin.js:79-81 | the router's first bindings are the cache, then the root |
| PluginProps.BindingsTail | src/SpyglassPlugin.js:83-87 | the bindings after those are the dependencies', in order |
| PluginProps.CacheRoute | src/SpyglassPlugin.js:79-81 | addresses under the cache prefix go to the cache store, same path under its root |
| PluginProps.RootRoute | src/SpyglassPlugin.js:79-81 | addresses under the root prefix, the document's included, go to the root store |
| PluginProps.RootShadowsDependency | src/SpyglassPlugin.js:79-87 | a dependency named `root` is never reached through its mount point |
| PluginProps.DependencyRoute | src/SpyglassPlugin.js:79-87 | an address under a uniquely named dependency's mount point goes to its store, same path |
| PluginProps.EarlierNotTaken | src/SpyglassPlugin.js:79-87 | no binding before a dependency's own takes its addresses |
| PluginProps.OwnBindingTakes | src/SpyglassPlugin.js:86 | a dependency's own binding maps its addresses, keeping the path |
| PluginProps.FileUriIgnoresDefault | src/SpyglassPlugin.js:44 | as written, a missing `filePath` gives `file:///root/undefined`, not the default file |
| PluginProps.FileUriUsesDefault | src/SpyglassPlugin.js:44 | as intended, a missing `filePath` gives `file:///root/file.mcfunction`, and a given one the code's address |
| PluginProps.DocumentRoute | src/SpyglassPlugin.js:44 | the address the constructor builds, `undefined` path included, is served by the root store at the same path |

## Left out

- Directory objects: the memory store's directory and file objects are modelled as an immutable value tree, which the store rebuilds along the path; aliasing between directory objects is not modelled.
- Memory store `await`s: the directory methods are `async` but called without `await`; the model gives them the synchronous `Map` behaviour the store relies on.
- Iteration order: the order of `Map` and `Object.entries` listings is not modelled; listings are stated as sets of named entries.
- Native codecs: the `toBase64`/`fromBase64` and `toHex`/`fromHex` paths are not modelled; base64 is the padded codec of section 4 of RFC 4648.
- Base64.DecodeOrThrow: neither source path is modelled exactly. The `base64-arraybuffer` fallback never throws: characters outside the alphabet go through its lookup table and give arbitrary bytes. The native `Uint8Array.fromBase64` accepts unpadded text and skips whitespace. The model decodes padded text exactly and refuses every other text with a SyntaxError.
- Build.Descend: a key is taken to exist only when it is an own key holding a truthy value. In JavaScript, `!current[part]` also sees inherited keys such as `constructor`, `toString` or `__proto__`; the code then steps into `Object` or `Object.prototype` and creates no `{}`. On a string, keys such as `0` or `length` read truthy, so the TypeError comes later, with another key and message than `CannotCreate(part, content)`. Both are not modelled.
- Plugin.SpyglassPlugin.constructor: the class keeps the address as the code builds it (`Plugin.FileUriAsWritten`); the corrected `Plugin.FileUri` is stated and proved beside it but not used by the class.
- Plugin.FileUriAsWritten: a `null` `filePath`, which JavaScript would concatenate as `null`, is not told apart from a missing one (`undefined`).
- Hex.Decode: requires hex digits; what `parseInt` makes of other characters is not modelled.
- JsonFs.JsonFileSystem.ReadFile: an object key that names an inherited property, or a key applied to a string, is not modelled; the snapshot is a tree of objects and strings.
- Bytes.Utf8Encode: lone surrogates, which `TextEncoder` replaces, are not modelled; characters are Unicode scalar values.
- FsaFs.FSAFileSystem.ReadFile: the `FileReader` failure path (EPERM) is not modelled.
- FsaFs.DomError: a `DOMException`'s message text is not modelled; file locks are a flag on each file.
- FsaFs.FSAFileSystem.Mkdir: the `options` parameter is dropped, because the loop runs whatever it holds.
- FsaFs.SupportedIffGranted: the create-and-remove probe calls `Random`, which the file does not import, so it is modelled as always answering false.
- FsaFs.Create: a rejected `navigator.storage.getDirectory()` is not modelled.
- Concurrency: the awaited calls are modelled as atomic; interleavings of concurrent calls on one store are not modelled.
- Plugin.SpyglassPlugin.Initialize: an awaited project call that rejects would leave the plugin initialising; the model resumes through `FinishInitialize`.
- Service glue: the language service itself (`Service`, `getClientManaged`, `colorize`, `complete`), `dispatchDecorationsUpdate`, `setTimeout`/`clearTimeout`, `EditorSyncState`, `handleCompletions` and `getColorTokenMark` are not modelled; their results are parameters.
- Plugin.SpyglassPlugin.Decorate: a CodeMirror `RangeSet` sorts its marks; the model keeps them in the order they are added.
- Build.InsertFile: the object is returned as a new value rather than updated in place; fetching, decompressing and writing the output file are I/O and not modelled.
- Plugin.SpyglassPlugin.constructor: requires the root and cache stores, which the router needs; a `null` store is not modelled. The `profilers` option and `VanillaConfig`'s own dependency list are not modelled.
- Plugin.CreateSpyglassService: returns the router instead of storing it into the `PluginExternals` object that `externals.fs` names.
- Event listeners that register or remove listeners while `emit` runs are not modelled; the `event` name on a listener set exists only for the proofs.
- `showFile` and `watch` of the four stores are not modelled separately; the router's are, and they behave the same.
- src/Externals/Archive.js, Crypto.js, Downloader.js and PluginExternals.js, src/EditorSyncState.js, src/Components/Hint.js and index.js are not part of this model.
- MemoryFsProps.MkdirRecursiveEndsExisting: a recursive `mkdir` of the memory store creates the whole path and then still fails with EEXIST, because the test for an existing name comes after the loop; this is the code's behaviour and is stated as such.
- FsaFsProps.RootAddress: resolving `file:///` itself in the File System Access store gives ENOENT, because there is no last segment to look up; this is the code's behaviour and is stated as such.

## Findings

| source | as written | input that shows it | evidently intended | confidence | as-written member | corrected member |
|---|---|---|---|---|---|---|
| src/SpyglassPlugin.js:44 | the document address joins the root URI with `options.filePath` of the raw object passed in, not the loaded options | options without `filePath` give `file:///root/undefined` | the loaded `this.options.filePath`, giving `file:///root/file.mcfunction` | high, not executed | Plugin.FileUriAsWritten, PluginProps.FileUriIgnoresDefault | Plugin.FileUri, PluginProps.FileUriUsesDefault |
