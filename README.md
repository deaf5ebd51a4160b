# fake-system, modelled in Dafny

`fake-system` simulates a POSIX machine inside a JavaScript program: an in-memory file system
with inodes, symbolic links, modes and descriptors, users and groups kept in `/etc/passwd` and
`/etc/group`, processes and login sessions, a small `bash`, the coreutils commands, the `fs`,
`path` and `util` modules of a Node-like runtime, and a terminal that draws into a grid of cells.
This project models that core and proves properties of the model.

What is modelled, module by module:

- `Wrappers`, `Text`, `Bits`, `Utf8`: the JavaScript building blocks the source relies on
  (`Option`/`Result`, `NaN`-aware numbers, `split`/`join`/`slice`/`indexOf`, decimal text and
  `parseInt`, 32-bit bit operations, little-endian words, UTF-8 with its round trip).
- `FsPath`, `FsMode`, `FsNode`: path normalisation and resolution, the mode argument parser,
  `open` flags, the stat predicates and the per-object metadata of `src/fs.ts`.
- `FsFormat`: the binary export and import of a file-system tree, with the round trip proved
  for the trees it holds for, and counterexamples for the trees it does not.
- `Vfs`, `VfsFacts`, `FdTable`, `FileSystems`: the file system as an arena of nodes
  (`lget`, `get`, `exists`, `link`, `unlink`, `symlink`, `mkdir`, `write`, `read`, `chmod`,
  `chown`, `utimes`, sizes, descriptors), its quirks as lemmas, and the `FileSystem` class whose
  methods are proved to compute those functions.
- `Streams`: the text stream of `src/stream.ts` with its cursor and write listeners.
- `Users`: the user manager of `src/um.ts` over the colon-separated tables.
- `Sys`: `System`, `UserSession` and `Process` of `src/index.ts`, and plugin registration.
- `ShellLex`, `Shell`: the tokenizer, aliases, substitutions, builtins, `run` and `runBash` of
  the bash plugin.
- `Cmd`: the command-line parser and help text of `src/plugins/command.ts`.
- `Coreutils`: `recursively`, `chgrp`, `chown`, `ls`, `rm`, `rmdir` and `cat`.
- `NodeFs`, `NodePath`, `NodeUtil`: the Node runtime modules.
- `Terminal`: the escape-sequence state machine, the drawing into the grid and the key map.

Where the source's behaviour is odd (for instance `unlink` never finding its entry, `read`
dropping the last byte by default, `chmod 755` then `ls -l` showing a spilled type column), the
model follows the code and the oddity is stated as a lemma about the model.

## Model

| member | source | states |
|---|---|---|
| FsNode.NewMeta | src/fs.ts:362-370 | a new object's mode carries its type bits, it has no links and its four timestamps are all the creation time |
| FsNode.TruncDiv | src/fs.ts:433-436 | `BigInt` division truncates toward zero, for negative dividends too |
| FsNode.Blocks | src/fs.ts:432 | the block count is the least number of 4096-byte blocks that holds the size |
| FsNode.Stat | src/fs.ts:420-469 | `stat()` reports the object's size, owner, group and link count, device and inode 0, `rdev` -1, 4096-byte blocks that cover the size |
| FsNode.Chmod | src/fs.ts:384-389 | `chmod` keeps the low three bits; each type bit stays set and is also turned on when `parsed << 3` has it; bits 3-11 and 16-31 become those of `parsed << 3`; only `ctime` changes besides |
| FsNode.Chown | src/fs.ts:391-395 | `chown` sets owner and group and `ctime` and changes nothing else |
| FsNode.Utimes | src/fs.ts:409-418 | `utimes` replaces exactly the timestamps that are given and leaves everything else |
| FsPath.Normalize | src/fs.ts:74-86 | the push/pop loop over the segments computes the normal form `NormalizeSpec` |
| FsPath.FoldKeepsClean | src/fs.ts:76-84 | folding segments without `/` into a clean stack leaves it clean (no '', '.' or '..') |
| FsPath.FoldOfClean | src/fs.ts:76-84 | clean segments are pushed unchanged |
| FsPath.NormalizedSegmentsClean | src/fs.ts:74-86 | the segments `normalize` keeps are all clean |
| FsPath.NormalizeOfCleanRelative | src/fs.ts:74-86 | a relative path of clean segments is its own normal form |
| FsPath.NormalizeOfCleanAbsolute | src/fs.ts:74-86 | an absolute path of clean segments is its own normal form |
| FsPath.NormalizeIdempotent | src/fs.ts:74-86 | normalising twice is normalising once |
| FsPath.NormalizeKeepsRoot | src/fs.ts:85 | the result starts with `/` exactly when the input does |
| FsPath.Resolve | src/fs.ts:88-97 | with at least one path the result is absolute (the loop returns after its first round) |
| FsPath.ParsePathArg | src/fs.ts:106-123 | a parsed path is absolute and has no second `/` after the root |
| FsPath.NormalizeRootedOk | src/fs.ts:74-86 | normalising an absolute path gives an absolute path with a single leading `/` |
| FsPath.ParseString | src/fs.ts:106-123 | a string argument names the absolute path `normalize('/' + path)` |
| FsPath.ParsePathArgIgnoresCwd | src/fs.ts:88-97 | a string argument's meaning does not depend on the working directory |
| FsPath.NormalizeExtraRoot | src/fs.ts:74-86 | an extra leading `/` on an absolute path does not change its normal form |
| FsPath.ParseStringIdempotent | src/fs.ts:106-123 | parsing an already parsed path changes nothing |
| FsPath.NormalizeTail | src/fs.ts:74-86 | after the root of a normalised absolute path comes no second `/` |
| FsPath.ReparseStable | src/fs.ts:106-123 | a parsed path parses to itself again under any working directory |
| FsMode.RwxToBinary | src/fs.ts:215 | the `rwx` string rewritten to binary digits keeps its length |
| FsMode.ShiftSmall | src/fs.ts:207-210 | a numeric mode below 0o777 is shifted left by three (multiplied by 8); a larger one passes through |
| FsMode.ParseModeArgRwx | src/fs.ts:213-215 | every `rwxr-x---`-shaped string parses to 0, since `parseInt('0b…')` reads only the `0` |
| FsMode.ParseModeArgRwxShape | src/fs.ts:213-215 | such a string parses as `parseInt('0b' + digits) << 3` |
| FsMode.ParseBinaryPrefix | src/fs.ts:215 | `parseInt('0b…')` without a radix is 0, and so is that value shifted |
| FsMode.ParseModeArgInvalid | src/fs.ts:216-218 | a string with neither three octal digits in a row nor the `rwx` shape is refused with `invalid mode: …` |
| FsMode.ParseModeArgOctal | src/fs.ts:208-210 | three octal digits are read in base 8 and shifted when below 0o777 |
| FsMode.ParseOctalTriple | src/fs.ts:209 | `parseInt` in base 8 of three octal digits is their octal value |
| FsMode.ChmodBits | src/fs.ts:384-389 | `chmod` never clears a type bit or the low three bits, may add type bits from the shifted value, and sets bits 3-11 to those of `parsed << 3` |
| FsMode.ChmodShiftsTwice | src/fs.ts:205-207 | `chmod(0o755)` on a regular file shifts twice and turns on every type bit, so every type predicate holds afterwards |
| FsMode.FlagNames | src/fs.ts:125-150 | `parseFlag` knows exactly the fourteen names of the table; any other name gives `undefined` |
| FsMode.FlagLetters | src/fs.ts:125-140 | in the table `w` truncates, `a` appends, all but `r` create, `x` is exclusive, `s` synchronous, and `+` adds reading or writing |
| FdTable.GetFd | src/fs.ts:945-951 | `getfd` throws exactly for a `null` slot (a closed descriptor) and otherwise gives the slot, `undefined` for a hole or past the end |
| FdTable.GetFdRegular | src/fs.ts:953-961 | `getfdRegular` succeeds exactly on a regular file, throws `not accessible` on `null` and `not a regular file` on anything else |
| FdTable.Push | src/fs.ts:963-965 | `open` appends one slot holding the object |
| FdTable.PushedSlot | src/fs.ts:963-965 | the descriptor one less than the new length reads back the opened object |
| FdTable.PushKeepsOthers | src/fs.ts:963-965 | opening changes no other descriptor |
| FdTable.ClosedInaccessible | plugins/node/src/modules/fs.ts:29-31 | after `closeSync`, `getfd` and `getfdRegular` on that descriptor throw |
| FdTable.CloseKeepsOthers | plugins/node/src/modules/fs.ts:29-31 | closing changes no other descriptor |
| FdTable.ClosedStaysClosed | src/fs.ts:963-965 | a closed descriptor stays closed whatever is opened later, since slots are never reused |
| Bits.Shl | src/fs.ts:207 | `<<` gives a signed 32-bit value, equal to `a * 2^n` whenever that product fits |
| Bits.U16Value | src/fs.ts:473-485 | a 16-bit little-endian field reads back as the stored value modulo 2^16 |
| Bits.U32Value | src/fs.ts:476-486 | a 32-bit little-endian field reads back as the stored value modulo 2^32 |
| Bits.FieldsAt | src/fs.ts:470-491 | the four metadata fields written by `_export` read back from their offsets in `_import` |
| Vfs.Walk | src/fs.ts:726-738 | the segment-by-segment walk of `lget` ends, when it succeeds, at an allocated object |
| Vfs.Lget | src/fs.ts:720-741 | `lget` resolves, when it succeeds, to an allocated object, through the root for paths outside `absPath` |
| Vfs.Deref | src/fs.ts:748-757 | following a link gives its target, which is never a link; a non-link is its own result |
| Vfs.Get | src/fs.ts:743-758 | `get` never returns a symbolic link |
| Vfs.GetRegular | src/fs.ts:760-766 | `getRegular` succeeds exactly when `get` does and names a regular file |
| Vfs.GetDir | src/fs.ts:768-774 | `getDir` succeeds exactly when `get` does and names a directory |
| Vfs.Exists | src/fs.ts:776-791 | `exists` fails only when the path argument cannot be parsed |
| Vfs.Bump | src/fs.ts:794-820 | `nlink` changes by the given amount on one object; nothing else changes |
| Vfs.SetMeta | src/fs.ts:384-418 | `chmod`, `chown` and `utimes` replace one object's metadata and nothing else |
| Vfs.Alloc | src/fs.ts:582-590 | a new object takes an unused id and leaves every other object alone |
| Vfs.SetEntry | src/fs.ts:805-808 | `files.set` changes only that directory's entries, which become the old ones with the name set |
| Vfs.RemoveEntry | src/fs.ts:821 | `files.delete` changes only that directory's entries, which become the old ones without the name |
| Vfs.Link | src/fs.ts:793-811 | `link` raises the object's link count first (twice when the path goes through the root), keeps the tree well formed and changes no file's contents |
| Vfs.LinkInside | src/fs.ts:801-810 | storing the link under the directory `absPath`'s rest names keeps the tree well formed and leaves the object's metadata alone |
| Vfs.Unlink | src/fs.ts:813-822 | `unlink` keeps the tree well formed and returns, when it succeeds, an allocated object |
| Vfs.MakeSymlink | src/fs.ts:824-826 | `symlink` allocates exactly the next id for the new link and keeps the tree well formed |
| Vfs.AddDevice | src/fs.ts:868-874 | `addDevice` allocates exactly the next id for the device and keeps the tree well formed |
| Vfs.Place | src/fs.ts:824-874 | a new object takes the next id and is linked at the path, and no other id is allocated |
| Vfs.MkdirOne | src/fs.ts:844-849 | `mkdir` without `recursive` returns the new directory at the next id and keeps the tree well formed |
| Vfs.NewDirectory | src/fs.ts:845-848 | the new directory is allocated at the next id, is a directory, and the tree stays well formed |
| Vfs.MkdirChain | src/fs.ts:830-842 | each round of `mkdir(path, true)` takes one new id, and the result, when there is one, is a directory |
| Vfs.MkdirChainStep | src/fs.ts:833-840 | a round that makes a directory hands on to the next round from that directory |
| Vfs.Mkdir | src/fs.ts:828-850 | `mkdir` returns a directory when it succeeds and never frees an id |
| Vfs.SetAt | src/fs.ts:536-538 | `Uint8Array.set` succeeds exactly when the source fits at the offset; then the bytes there become the source, all others stay and the length is kept; otherwise it is a `RangeError` |
| Vfs.WriteData | src/fs.ts:529-541 | at position 0 without a length the bytes are replaced; otherwise the length is kept or the write is a `RangeError` |
| Vfs.Rewrite | src/fs.ts:533-540 | after a write the file holds the new bytes and a new `mtime`; nothing else changes |
| Vfs.WriteFile | src/fs.ts:529-541 | a write into a regular file allocates nothing and keeps the tree well formed |
| Vfs.Write | src/fs.ts:859-866 | `write` allocates at most the next id and keeps the tree well formed |
| Vfs.Overwrite | src/fs.ts:860-862 | writing into an existing path allocates nothing |
| Vfs.Append | src/fs.ts:543-550 | `append` leaves the old bytes followed by the new ones |
| Vfs.ToEntries | src/fs.ts:876-890 | the exported entries follow the directory's map order, one per entry |
| VfsFacts.ParseName | src/fs.ts:106-123 | a string argument that is one clean name `x` parses to `/x` in any directory |
| VfsFacts.UnlinkNeverFinds | src/fs.ts:813-822 | `unlink` looks the parsed path, which starts with `/`, up as one name, so it always throws `… does not exist` (or the parse error) and changes nothing |
| VfsFacts.NoRootedName | src/fs.ts:805-808 | in a tree built by `link` and `mkdir`, no directory has a name starting with `/` |
| VfsFacts.ExistsNeedsEmptyName | src/fs.ts:776-791 | `exists` answers true only when the directory has an entry named '' (the segment before the leading `/`) |
| VfsFacts.LinkDropsFirstChar | src/fs.ts:793-811 | `link(x, file)` in the root for one name stores the file under `x` without its first character and counts one link |
| VfsFacts.ReadDropsLastByte | src/fs.ts:852-857 | `read` with its default length -1 returns the file's bytes without the last one |
| VfsFacts.RecursiveSizeMoreFuel | src/fs.ts:710-718 | more recursion depth does not change `recursiveSize` once it has an answer |
| VfsFacts.SubdirSizesMoreFuel | src/fs.ts:712-716 | the same for the sum over the subdirectories |
| VfsFacts.ParsePair | src/fs.ts:106-123 | `d/x` of two clean names parses to `/d/x` and splits into `d` and `x` |
| VfsFacts.LinkIntoSubdirectory | src/fs.ts:743-811 | `link('d/x', file)` in the root stores the file as `x` in directory `d`, and `get('d/x')` then finds it (through the link, if it is one) |
| VfsFacts.LinkPairInside | src/fs.ts:802-805 | the link lands as `x` in the directory `d` names |
| VfsFacts.FoundAfterSet | src/fs.ts:720-758 | after that `files.set`, `get('d/x')` walks to the new entry |
| VfsFacts.WalkPair | src/fs.ts:726-738 | walking `[d, x]` from the root follows `d` and then `x` |
| VfsFacts.LgetName | src/fs.ts:720-741 | `lget` of one clean name in the root walks that name |
| VfsFacts.LgetPair | src/fs.ts:720-741 | `lget` of `d/x` in the root walks the two names |
| VfsFacts.JoinRootName | src/fs.ts:99-101 | `join('/', '/x')` is `/x` |
| VfsFacts.MkdirName | src/fs.ts:828-850 | `mkdir(x)` in the root makes a new empty directory with `absPath` `/x/` and no links, which `get(x)` then finds |
| VfsFacts.MkdirNestedName | src/fs.ts:844-849 | `mkdir('d/x')` stores the new directory under the single name `d/x`, so `get('d/x')` still fails when the root has no `d` |
| VfsFacts.WriteNewFile | src/fs.ts:859-866 | `write(x, data)` in a root with no '' entry makes a new regular file owned like the root, stored under `x` without its first character, with one link |
| VfsFacts.SymlinkFixesTarget | src/fs.ts:824-826 | `symlink` resolves the target once, when it is made: a target that fails leaves everything as it was, otherwise `get` through the link gives the object the target named then |
| VfsFacts.RootedNameSplit | src/fs.ts:830 | the segments of `/x` are '' and `x` |
| VfsFacts.MkdirOneName | src/fs.ts:844-849 | `mkdir(x)` in any directory stores a new empty directory there under `x` and changes no other object |
| VfsFacts.MkdirRecursiveNests | src/fs.ts:830-842 | `mkdir(x, true)` makes `x` and then `x` again inside it (it re-makes the whole path each round) and returns the inner one |
| VfsFacts.ExportedDirectoryReimports | src/fs.ts:876-920 | importing an exported directory of small regular files gives back its metadata as 16-bit fields and its entries in map order, each re-imported |
| FsFormat.ExportHeader | src/fs.ts:470-478 | `_export` writes exactly 10 bytes |
| FsFormat.ImportHeader | src/fs.ts:480-492 | `_import` succeeds exactly on at least 10 bytes and reads 16-bit mode, uid, gid and a 32-bit size |
| FsFormat.ImportRegular | src/fs.ts:563-571 | `RegularFile.import` succeeds exactly on at least 10 bytes and yields a file of at most the bytes after the header |
| FsFormat.ImportDirectory | src/fs.ts:892-920 | `Directory.import` yields a directory when it succeeds |
| FsFormat.ReadRecord | src/fs.ts:896-903 | an entry record's name is at most 255 bytes and its header starts right after it |
| FsFormat.HeaderRoundTrip | src/fs.ts:470-492 | the header fields read back are those written, each modulo its width |
| FsFormat.ReimportedMeta | src/fs.ts:480-492 | an object imported from a header gets the stored 16-bit fields and zero timestamps |
| FsFormat.RegularRoundTrip | src/fs.ts:556-571 | a regular file is imported back with its bytes, its 16-bit mode, uid and gid and zero timestamps |
| FsFormat.FileExport | src/fs.ts:556-571 | a regular file exports as a header stating its length, then its bytes, and imports back as the re-imported file |
| FsFormat.RecordRead | src/fs.ts:896-903 | a record's head is read back as its name bytes and its header |
| FsFormat.RecordLaidOut | src/fs.ts:882-904 | a record laid out by `export` is read back by `import`, whose offset then lands at its end |
| FsFormat.RecordRoundTrip | src/fs.ts:876-904 | one flat entry's record reads back as its name, its file's header and a payload that imports as the re-imported file |
| FsFormat.RegularChild | src/fs.ts:906-907 | an entry whose mode has the regular-file bit is imported as a regular file |
| FsFormat.EntriesStep | src/fs.ts:896-914 | reading `count` records is reading one record and then `count - 1` after it |
| FsFormat.EntriesRoundTrip | src/fs.ts:876-914 | the records of flat entries are read back one by one in order |
| FsFormat.ReimportFilesDistinct | src/fs.ts:915 | re-importing keeps the names, so distinct names stay distinct in the `Map` |
| FsFormat.DirectoryLaidOut | src/fs.ts:876-890 | a non-empty flat directory exports as a header stating its entry count, then its records |
| FsFormat.DirectoryOf | src/fs.ts:892-920 | a header followed by records with distinct names imports as a directory of those entries |
| FsFormat.DirectoryRoundTrip | src/fs.ts:876-920 | a non-empty directory of regular files with distinct names is imported back with the same entries in order, its 16-bit mode with `S_IFDIR` and zero timestamps |
| FsFormat.ModeTests | src/fs.ts:906-912 | on the stored 16 bits the importer's tests are the `S_IFREG` test and then the `S_IFDIR` test, and a link's `S_IFLNK` passes the regular-file test |
| FsFormat.LinkExport | src/fs.ts:595-604 | a link exports its UTF-8 path padded to the path's UTF-16 length, and fails with a `RangeError` when that is too short |
| FsFormat.LinkReimportsAsFile | src/fs.ts:599-604 | a link inside an exported directory is read back as a regular file holding the bytes the link wrote |
| FsFormat.ExportFromFails | src/fs.ts:877 | a directory's export fails when any entry's export fails |
| FsFormat.ExportRefusals | src/fs.ts:664-666 | a device cannot be exported, nor a directory holding one anywhere, nor an empty directory (`reduce` of no sizes throws) |
| FsFormat.FullRoundTrip | src/fs.ts:922-932 | `fullExport` puts the version byte first and `fullImport` imports the rest |
| FsFormat.NestedDirectoryMisread | src/fs.ts:901-904 | a directory holding a directory that holds an empty file exports, but imports with a `RangeError`, since the importer skips a child by its header's size, which for a directory counts entries, not bytes |
| FileSystems.FileSystem.constructor | src/fs.ts:941-943 | a new file system is an empty root directory owned by uid 0 and gid 0, with no descriptors |
| FileSystems.FileSystem.Lget | src/fs.ts:720-741 | the loop over the segments computes `Vfs.Lget` |
| FileSystems.FileSystem.Get | src/fs.ts:743-758 | `lget` and then along `linkedTo` computes `Vfs.Get` |
| FileSystems.FileSystem.GetRegular | src/fs.ts:760-766 | computes `Vfs.GetRegular` |
| FileSystems.FileSystem.GetDir | src/fs.ts:768-774 | computes `Vfs.GetDir` |
| FileSystems.FileSystem.Exists | src/fs.ts:776-791 | the loop over the segments computes `Vfs.Exists` |
| FileSystems.FileSystem.Link | src/fs.ts:793-811 | the new tree and result are those of `Vfs.Link`; ids and descriptors are unchanged |
| FileSystems.FileSystem.LinkInside | src/fs.ts:801-810 | the new tree and result are those of `Vfs.LinkInside` |
| FileSystems.FileSystem.Unlink | src/fs.ts:813-822 | the new tree and result are those of `Vfs.Unlink` |
| FileSystems.FileSystem.Symlink | src/fs.ts:824-826 | the new tree and result are those of `Vfs.MakeSymlink`, and one id is used |
| FileSystems.FileSystem.AddDevice | src/fs.ts:868-874 | the new tree and result are those of `Vfs.AddDevice`, and one id is used |
| FileSystems.FileSystem.MkdirOne | src/fs.ts:844-849 | the new tree and result are those of `Vfs.MkdirOne`, and one id is used |
| FileSystems.FileSystem.Mkdir | src/fs.ts:828-850 | the new tree and result are those of `Vfs.Mkdir` |
| FileSystems.FileSystem.MkdirChain | src/fs.ts:830-842 | the loop of `mkdir(path, true)` computes `Vfs.MkdirChain` |
| FileSystems.FileSystem.Write | src/fs.ts:859-866 | the new tree and result are those of `Vfs.Write` |
| FileSystems.FileSystem.Overwrite | src/fs.ts:860-862 | the new tree and result are those of `Vfs.Overwrite` |
| FileSystems.FileSystem.Place | src/fs.ts:824-865 | the new tree and result are those of `Vfs.Place` |
| FileSystems.FileSystem.WriteFile | src/fs.ts:529-541 | the new tree and result are those of `Vfs.WriteFile` |
| FileSystems.FileSystem.Append | src/fs.ts:543-550 | the new tree is that of `Vfs.Append` |
| FileSystems.FileSystem.Read | src/fs.ts:852-857 | computes `Vfs.Read` |
| FileSystems.FileSystem.Chmod | src/fs.ts:384-389 | an invalid mode throws before anything changes; otherwise only the object's metadata changes, as `FsNode.Chmod` says |
| FileSystems.FileSystem.Chown | src/fs.ts:391-395 | only the object's metadata changes, as `FsNode.Chown` says |
| FileSystems.FileSystem.Utimes | src/fs.ts:409-418 | only the object's metadata changes, as `FsNode.Utimes` says |
| FileSystems.FileSystem.RecursiveSize | src/fs.ts:710-718 | the loop over the entries computes `Vfs.RecursiveSize` |
| FileSystems.FileSystem.GetFd | src/fs.ts:945-951 | computes `FdTable.GetFd` |
| FileSystems.FileSystem.GetFdRegular | src/fs.ts:953-961 | computes `FdTable.GetFdRegular` |
| FileSystems.FileSystem.Open | src/fs.ts:963-965 | a failing `get` throws and changes nothing; otherwise the object goes into a new last slot and the result is the new length |
| FileSystems.FileSystem.Close | plugins/node/src/modules/fs.ts:29-31 | the descriptor table becomes `FdTable.Close` of the old one and nothing else changes |
| FileSystems.SubdirSizesStaysNone | src/fs.ts:712-716 | once the sum over the first entries runs out of depth, every longer sum does too |
| Streams.OverwriteInside | src/stream.ts:19-20 | `write` keeps the text before the cursor, puts the new text at it and keeps what lies past it |
| Streams.OverwriteAtEnd | src/stream.ts:19-20 | writing at the end of the text appends |
| Streams.Live | src/stream.ts:21-25 | the listeners a write calls are the slots that are not `undefined`, in order |
| Streams.RemoveSlot | src/stream.ts:82-84 | the slot becomes `undefined`, the array grows with holes when the id is past its end, a negative id leaves the slots alone, and no other slot changes |
| Streams.RemoveDropsOne | src/stream.ts:21-84 | a removed listener is no longer called and the others still are, in the same order |
| Streams.Stream.constructor | src/stream.ts:11-17 | a new stream built from text holds that text, with the cursor at 0 and no listeners |
| Streams.Stream.FromBytes | src/stream.ts:11-17 | a new stream built from bytes holds their UTF-8 decoding, with the cursor at 0 and no listeners |
| Streams.Stream.Length | src/stream.ts:65-67 | `length` is the length of the text |
| Streams.Stream.Write | src/stream.ts:19-26 | the text goes over the buffer at the cursor, which does not move, and every live listener is due once, in order |
| Streams.Stream.Read | src/stream.ts:28-36 | `read` returns `data.slice(pos, length)` (an end index, not a count) and moves the cursor by `length`, or to the end when there is none |
| Streams.Stream.ReadCode | src/stream.ts:38-42 | `readCode` gives the code at the cursor, `NaN` outside the text, and moves on by one |
| Streams.Stream.ReadChar | src/stream.ts:44-48 | `readChar` gives the character and its code, and throws outside the text; the cursor moves on by one either way |
| Streams.Stream.Seek | src/stream.ts:50-52 | the cursor is set, unchecked, and nothing else changes |
| Streams.Stream.IndexOf | src/stream.ts:54-56 | the first occurrence of the character at or after the cursor, or -1 when there is none |
| Streams.Stream.ReadUpTo | src/stream.ts:58-63 | the text from the cursor up to the next occurrence, which the cursor then points at; it holds no occurrence of the character |
| Streams.Stream.AddWriteListener | src/stream.ts:77-80 | the listener gets a new last slot, whose index is returned |
| Streams.Stream.RemoveWriteListener | src/stream.ts:82-84 | the slots become `RemoveSlot` of the old ones |
| Streams.Stream.AttachTo | src/stream.ts:86-88 | a forwarding listener into the other stream gets a new last slot |
| Streams.UpToHasNone | src/stream.ts:58-63 | the text `readUpTo` returns when the character was found holds no occurrence of it |
| Users.ReadTable | src/um.ts:29-31 | the parsed table has at least one row, each with at least one field |
| Users.Lines | src/um.ts:34 | each row becomes its fields joined with `:` |
| Users.ReadWriteTable | src/um.ts:29-35 | a table without `\n` or `:` in its fields, and not empty, is parsed back from the text `writeDB` makes |
| Users.WriteReadTable | src/um.ts:29-35 | every text is written back exactly as it was parsed |
| Users.EmptyTableReadsBack | src/um.ts:29-35 | the empty table reads back as one row with one empty field |
| Users.Cell | src/um.ts:38-45 | `row[k]` is the field when there is one and `undefined` past the end |
| Users.Rest | src/um.ts:73 | the `filter` keeps only rows that do NOT carry the key, in order |
| Users.RestKeeps | src/um.ts:38-73 | a row is kept exactly when it is in the table and does not carry the key |
| Users.RestFirst | src/um.ts:38 | the first row kept is the first row without the key |
| Users.RestNone | src/um.ts:38 | nothing is kept exactly when every row carries the key |
| Users.RestIdempotent | src/um.ts:72-74 | deleting the same key twice deletes nothing more |
| Users.GetUserFirstOther | src/um.ts:37-47 | `getUserData` answers with the first row that does not carry the key |
| Users.GetUserFails | src/um.ts:37-47 | `getUserData` throws exactly when every row carries the key |
| Users.GetUserAfterDelete | src/um.ts:37-74 | after deleting a key, looking it up gives what it gave before |
| Users.UserEntries | src/um.ts:50-57 | `getAllUsersData` pairs every row's name with its record, in order |
| Users.AllUsersLast | src/um.ts:49-58 | a name maps to the record of the last row with that name |
| Users.AllUsersAbsent | src/um.ts:49-58 | a name no row has is not in the map |
| Users.UserRow | src/um.ts:62 | `setUserData` writes a row of seven fields |
| Users.UserRowReadsBack | src/um.ts:39-62 | a row written by `setUserData` reads back as the record it was given |
| Users.FirstWithId | src/um.ts:63-65 | `uids.indexOf(id)`: the first row whose field 2 is the id, or the end |
| Users.UpsertPlaces | src/um.ts:63-68 | after the update the first row with the new row's id is the new row, in place of the old one or at the end, and no other row changes |
| Users.UpsertIdempotent | src/um.ts:60-70 | setting the same row twice is setting it once |
| Users.GroupOf | src/um.ts:77-82 | a row reads as a group exactly when it has field 3, whose members are that field split on ' ' |
| Users.GetGroupFirstOther | src/um.ts:76-83 | `getGroupData` answers with the first row that does not carry the key |
| Users.GroupRecords | src/um.ts:86-90 | every row reads as a group, in order, or the whole map throws when one row has no field 3 |
| Users.AllGroupsNamed | src/um.ts:85-91 | the group map has no duplicate name and keys every group by its name |
| Users.GroupRow | src/um.ts:95 | `setGroupData` writes a row of four fields |
| Users.GroupRowReadsBack | src/um.ts:81-95 | members are written joined with ',' but read split on ' ', so the whole list reads back as one member |
| Users.Members | src/um.ts:111 | every group kept lists the name among its members |
| Users.MembersExact | src/um.ts:111 | exactly the groups listing the name are kept, without duplicates |
| Users.ForUserExact | src/um.ts:109-113 | `getGroupsForUser` keeps exactly the groups that list the user's name |
| Users.DBRead | src/um.ts:29-31 | a table read from a file has at least one row, each with at least one field |
| Users.DBWrite | src/um.ts:33-35 | writing a table keeps the tree well formed and uses at most one new id |
| Users.DBReadDropsLastChar | src/um.ts:29-31 | `read` drops the last byte by default, so a stored table comes back with its last character cut off |
| Users.UserManager.constructor | src/um.ts:25-27 | the manager keeps the file system it is given |
| Users.UserManager.ReadDB | src/um.ts:29-31 | computes `DBRead` |
| Users.UserManager.WriteDB | src/um.ts:33-35 | the new tree is that of `DBWrite` |
| Users.UserManager.GetUserData | src/um.ts:37-47 | the lookup over `/etc/passwd`, or the error reading it |
| Users.UserManager.GetAllUsersData | src/um.ts:49-58 | the map over `/etc/passwd`, or the error reading it |
| Users.UserManager.SetUserData | src/um.ts:60-70 | `/etc/passwd` is rewritten with the row put over the first row with the same uid, or appended |
| Users.UserManager.DeleteUser | src/um.ts:72-74 | `/etc/passwd` is rewritten with the rows that do not carry the key |
| Users.UserManager.GetGroupData | src/um.ts:76-83 | the lookup over `/etc/group`, or the error reading it |
| Users.UserManager.GetAllGroupsData | src/um.ts:85-91 | the map over `/etc/group`, or the error reading it |
| Users.UserManager.SetGroupData | src/um.ts:93-103 | the table is read from `/etc/groups` and written, with the row set, to `/etc/group` |
| Users.UserManager.DeleteGroup | src/um.ts:105-107 | `/etc/group` is rewritten with the rows that do not carry the key |
| Users.UserManager.GetGroupsForUser | src/um.ts:109-113 | the groups listing the name of the user the lookup gives, keyed by group name, or the first error on the way |
| Sys.FirstMissing | src/index.ts:106-112 | the first required id not added yet, or none exactly when all are added |
| Sys.FirstMissingAt | src/index.ts:107-111 | the id reported is the first missing one in the order the plugin lists them |
| Sys.Process.constructor | src/index.ts:158-171 | a new process has priority 0, the session's owner and directory, umask 0o022, no exit code, the given argv, the shell's default environment and three fresh empty streams |
| Sys.System.constructor | src/index.ts:41-100 | a new system has the host name `fake-system`, no processes, and the shell and then the coreutils plugin added when asked |
| Sys.System.AddPlugin | src/index.ts:102-116 | an id already added and a missing requirement are refused; otherwise the plugin's id is recorded exactly when its call returns |
| Sys.System.Login | src/index.ts:118-156 | `login` opens a session for the user the key finds, in the user's home directory, or throws the lookup's error |
| Sys.UserSession.constructor | src/index.ts:146-156 | the session carries the user's record, starts in the home directory, with no aliases and `prevDir` the home directory |
| Sys.UserSession.CreateProcess | src/index.ts:158-174 | exactly one process is appended, whose pid is the number of processes before it |
| Sys.BaseRun | src/index.ts:176-178 | the base `run` always throws `cannot run processes` |
| Sys.MissingRequirementRefused | src/index.ts:106-112 | a plugin is refused while any of its requirements is missing |
| Sys.AddedRefused | src/index.ts:103-104 | a plugin id once added is refused forever after |
| Sys.AddAccepted | src/index.ts:105-115 | a plugin whose requirements are all added and whose call returns is added |
| ShellLex.FirstDigit | src/plugins/bash.ts:86-98 | where an unanchored match of the digit class starts: the first digit, or the end |
| ShellLex.RunLength | src/plugins/bash.ts:42-45 | a match takes at most `max` digits, all in the class |
| ShellLex.FirstRun | src/plugins/bash.ts:42-86 | the match of `/[digits]{1,max}/` is one to `max` digits long, or none |
| ShellLex.Numeric | src/plugins/bash.ts:85-100 | a numeric escape moves the scan forward |
| ShellLex.Pattern | src/plugins/bash.ts:84-100 | `\h`, the octal digits, `\u` and `\U` match from the character after the `h` or from the escaped character itself |
| ShellLex.Escape | src/plugins/bash.ts:67-105 | every backslash escape moves the scan forward |
| ShellLex.LexFrom | src/plugins/bash.ts:58-119 | a scan that returns adds at least one word, since the last word is always pushed |
| ShellLex.LexQuote | src/plugins/bash.ts:60-66 | a single-quoted run that returns adds at least one word |
| ShellLex.LexEscape | src/plugins/bash.ts:67-105 | a backslash that returns adds at least one word |
| ShellLex.Cut | src/plugins/bash.ts:55-57 | the line is cut before its first `#` |
| ShellLex.Tokens | src/plugins/bash.ts:49-120 | `tokenize` gives at least one word whenever it returns |
| ShellLex.QuotedRun | src/plugins/bash.ts:62-65 | the inner loop copies the text up to the next single quote and stops on it |
| ShellLex.Tokenize | src/plugins/bash.ts:49-120 | the `while` loop over the characters computes `Tokens` |
| ShellLex.StepEscapeEnd | src/plugins/bash.ts:67-104 | a backslash at the very end adds `undefined` |
| ShellLex.StepEscape | src/plugins/bash.ts:67-105 | a backslash adds the escape's text and goes on after it, or throws |
| ShellLex.StepPlain | src/plugins/bash.ts:113-115 | another character goes into the current word |
| ShellLex.StepDouble | src/plugins/bash.ts:106-108 | a double quote toggles the quoting mode and marks the word quoted |
| ShellLex.StepSpace | src/plugins/bash.ts:109-112 | a space outside double quotes ends the current word |
| ShellLex.HashEndsLine | src/plugins/bash.ts:55-57 | everything from the first `#` on is dropped, even inside quotes |
| ShellLex.LexPlain | src/plugins/bash.ts:113-115 | a run of plain characters goes into the current word as it is |
| ShellLex.LexWord | src/plugins/bash.ts:113-115 | a run of plain characters fills the empty current word |
| ShellLex.LexJoined | src/plugins/bash.ts:58-119 | plain words joined by spaces are scanned back one by one |
| ShellLex.JoinSplit | src/plugins/bash.ts:109-115 | the first word of a joined line ends at the first space |
| ShellLex.SpaceSeparated | src/plugins/bash.ts:49-120 | words joined by single spaces come back as they are, one unquoted word each, empty words included |
| ShellLex.DoubleQuoted | src/plugins/bash.ts:106-115 | text between double quotes is one quoted word, spaces and single quotes included |
| ShellLex.OneEscape | src/plugins/bash.ts:67-105 | a line that is one escape is the one word that escape gives |
| ShellLex.SingleQuoted | src/plugins/bash.ts:60-66 | text between single quotes is one quoted word, taken as it is |
| ShellLex.UnclosedQuoteThrows | src/plugins/bash.ts:62-65 | a single quote that is never closed makes the inner loop append `undefined` until the word passes the engine's string limit, so the scan throws `Invalid string length` |
| ShellLex.ReturnEscapeIsTab | src/plugins/bash.ts:80-81 | `\r` gives a tab, not a carriage return |
| ShellLex.ControlEscapeIsHash | src/plugins/bash.ts:101-102 | `\c` gives `#` (the code of `c` minus 64) |
| ShellLex.HexEscapeReadsOctal | src/plugins/bash.ts:84-88 | `\h41` reads its digits in base 8 and gives `!`, not `A` |
| ShellLex.OctalEscapeSkipsNext | src/plugins/bash.ts:89-116 | `\101x` gives `A` and drops the `x`, since the scan moves one past the digits |
| ShellLex.TrailingBackslash | src/plugins/bash.ts:67-104 | a backslash at the very end adds the text `undefined` |
| Shell.Display | src/plugins/bash.ts:195-236 | a present value shows as itself (an absent one as `undefined`) |
| Shell.Arg | src/plugins/bash.ts:181-206 | `argv[k]` is present exactly below the length, and is then the k-th argument |
| Shell.Drop | src/plugins/bash.ts:182-226 | `argv.slice(k)` is the suffix from k, or empty past the end |
| Shell.Lookup | src/plugins/bash.ts:126-195 | `map.get` finds a value exactly for a key in the map, and it is that key's value |
| Shell.Named | src/plugins/bash.ts:176-267 | a name found among `defaultCommands` is that builtin's name |
| Shell.NamedNameOf | src/plugins/bash.ts:176-267 | every builtin is found under its own name |
| Shell.ResolveAliases | src/plugins/bash.ts:122-131 | only the first word's text changes, to its alias when there is one; the count, the quoted flag and the other words are kept |
| Shell.AliasNotReexpanded | src/plugins/bash.ts:126-129 | the alias's value is not looked up again, even when it is itself an alias |
| Shell.AliasOnlyFirstWord | src/plugins/bash.ts:126 | an alias name after the first word is left as it is |
| Shell.Substitutions | src/plugins/bash.ts:164-173 | the first word is kept; every later word is resolved and normalized unless quoted or starting with `/`, `.` or `-` |
| Shell.SubstitutionsLoop | src/plugins/bash.ts:164-173 | the loop over `words.slice(1)` computes `Substitutions` |
| Shell.SubstituteFromRoot | src/plugins/bash.ts:168 | a rewritten word becomes the normalized `/word`, whatever the working directory |
| Shell.SubstitutionsIgnoreCwd | src/plugins/bash.ts:164-173 | the working directory makes no difference to the arguments |
| Shell.Retexted | src/plugins/bash.ts:168 | the words after substitution carry the new texts and keep their quoted flags |
| Shell.SubstitutionsIdempotent | src/plugins/bash.ts:164-173 | substituting the rewritten words again changes nothing |
| Shell.SplitOnEquals | src/plugins/bash.ts:191-192 | an argument holding `=` splits into at least a name and a value |
| Shell.UnaliasFrom | src/plugins/bash.ts:247-256 | the aliases left are a sub-map of the old ones |
| Shell.AliasDefines | src/plugins/bash.ts:191-193 | `alias name=value` sets the alias and writes nothing |
| Shell.AliasPrintsDefinition | src/plugins/bash.ts:194-195 | `alias name` after `alias name=value` writes `name=value` and a newline |
| Shell.UnaliasAllClears | src/plugins/bash.ts:249-251 | any `-a` among the arguments leaves no alias |
| Shell.UnaliasRemovesNames | src/plugins/bash.ts:252-254 | without `-a`, exactly the given names are removed |
| Shell.AliasThenUnalias | src/plugins/bash.ts:186-256 | defining an alias and removing it leaves the other aliases unchanged |
| Shell.CdSpec | src/plugins/bash.ts:205-223 | `cd` succeeds exactly when its target does; the old directory becomes the previous one and nothing else in the session changes |
| Shell.CdDashReturns | src/plugins/bash.ts:216-222 | `cd dir` then `cd -` returns to the first directory, with `dir` as the previous one |
| Shell.CdGoesHome | src/plugins/bash.ts:208-212 | `cd` with no argument, or `~`, goes to the home directory |
| Shell.CdTildeUser | src/plugins/bash.ts:213-215 | `cd ~user` goes to the sixth field of the first passwd row whose second field is not `user`, as `getUserData` filters |
| Shell.ExitCode | src/plugins/bash.ts:231-233 | with no second argument the exit code is 0 |
| Shell.ExitReadsSecondArgument | src/plugins/bash.ts:232 | the code is `parseInt` of `argv[1]`, the second argument |
| Shell.PwdSpec | src/plugins/bash.ts:235-237 | the working directory and a newline are written to standard output |
| Shell.BracketNeedsClosing | src/plugins/bash.ts:258-265 | the exit code becomes -1 exactly when the last argument is not `]`; arguments and standard output are unchanged |
| Shell.Script | src/plugins/bash.ts:180-183 | with no second argument, reading the script fails with `invalid path: undefined` |
| Shell.Settled | src/plugins/bash.ts:273-274 | after a builtin that returned, the exit code is set; nothing else changes |
| Shell.Candidate | src/plugins/bash.ts:313-317 | `resolve(dir, name)` is `/name`, whatever the directory |
| Shell.Locate | src/plugins/bash.ts:316-322 | a path the loop finds exists |
| Shell.LocateOnlyRoot | src/plugins/bash.ts:316-322 | the loop finds `/name` exactly when there is a `PATH` entry and `/name` exists |
| Shell.FoundOnlyAtRoot | src/plugins/bash.ts:313-326 | the command is found only as `/name`; otherwise the error is the missing `PATH` or `name does not exist` |
| Shell.Shebang | src/plugins/bash.ts:332-341 | the new arguments end with the old ones, after at least two new ones |
| Shell.LineWords | src/plugins/bash.ts:49-131 | the words of a plain line, first word no alias, reach the dispatch unchanged |
| Shell.BuiltinLine | src/plugins/bash.ts:270-274 | a line naming a builtin runs it on the process as it is, then sets the exit code |
| Shell.BuiltinIgnoresLine | src/plugins/bash.ts:272-273 | a builtin never sees the other words of its line |
| Shell.CommandLine | src/plugins/bash.ts:275-277 | a line naming no builtin only sets the arguments to the substituted words |
| Shell.RunBashCdGoesHome | src/plugins/bash.ts:206-209 | under `runBash`, `cd dir` goes home, since the process has no arguments |
| Shell.RunBashExitIsZero | src/plugins/bash.ts:232 | under `runBash`, `exit n` exits with 0 |
| Shell.RunBashAliasDefinesNothing | src/plugins/bash.ts:187 | under `runBash`, `alias name=value` leaves the session unchanged |
| Shell.RunBashDotFails | src/plugins/bash.ts:181-183 | under `runBash`, `. file` throws, the error is written to standard error and the process is run |
| Shell.RunBashUnclosedQuote | src/plugins/bash.ts:370-379 | under `runBash`, a line with an unclosed single quote throws `Invalid string length`, which is written to standard error, and the process is then run |
| Shell.RunBashCommandNotAtRoot | src/plugins/bash.ts:313-379 | under `runBash`, a command without `/name` is refused with `name does not exist` |
| Shell.RunBashOfCommand | src/plugins/bash.ts:276 | under `runBash`, a command line ends in `run` with the substituted words |
| Shell.DefaultPath | src/plugins/bash.ts:25-26 | the default environment has a `PATH` |
| Shell.RunNotFound | src/plugins/bash.ts:323-325 | a command not found is refused with the lookup's error |
| Shell.ExecutorRunsAgain | src/plugins/bash.ts:353-357 | the `/bin/bash` device given one non-builtin word runs the process again with the same arguments |
| Shell.ShebangPlain | src/plugins/bash.ts:332-340 | `#!interp` gives the interpreter, the text from the newline, then the old arguments |
| Shell.ShebangArgument | src/plugins/bash.ts:336-338 | `#!prog arg` gives the program, its one argument, the text from the newline, then the old arguments |
| Shell.ShebangLine | src/plugins/bash.ts:333-335 | where the first newline is, and the slices before and after it |
| Shell.SpaceAt | src/plugins/bash.ts:337-338 | where the first space of the interpreter line is, and the slices around it |
| Shell.RunAlias | src/plugins/bash.ts:186-199 | the loop leaves the aliases and standard output as `AliasFrom` gives them, the stream's position and listeners kept |
| Shell.RunUnalias | src/plugins/bash.ts:247-256 | the loop leaves the aliases `UnaliasFrom` gives |
| Shell.RunCd | src/plugins/bash.ts:205-223 | the session's directories become those of `CdSpec`, or stay unchanged with the lookup's error |
| Shell.Bash | src/plugins/bash.ts:270-277 | the session, process and spawned processes end as `BashSpec` gives them |
| Shell.RunBuiltin | src/plugins/bash.ts:176-267 | each builtin leaves session, process and spawned processes as `BuiltinSpec` gives them |
| Shell.RunDot | src/plugins/bash.ts:180-241 | `.` and `source` end as `DotSpec` gives |
| Shell.ReadScript | src/plugins/bash.ts:181-183 | reading the file named by the second argument gives `Script`: its bytes decoded, or the error `read` throws |
| Shell.RunEval | src/plugins/bash.ts:225-229 | `eval` ends as `EvalSpec` gives |
| Shell.RunBuiltinCommand | src/plugins/bash.ts:201-203 | `builtin` appends a new process first and ends as `BuiltinCmdSpec` gives |
| Shell.Which | src/plugins/bash.ts:313-326 | the search gives the path or error `Found` gives |
| Shell.Run | src/plugins/bash.ts:312-349 | `run` ends as `RunSpec` gives, and only the arguments change |
| Shell.RunStep | src/plugins/bash.ts:313-345 | a pass of `run` that does not go on to a `#!` interpreter ends with the arguments it was given |
| Shell.Pass | src/plugins/bash.ts:313-345 | one pass of `run` over the file system computes `RunStep`: lookup, then device, `#!` file or refusal |
| Shell.BashExecutor | src/plugins/bash.ts:353-358 | the device's executor ends as `ExecutorSpec` gives |
| Shell.RunBash | src/plugins/bash.ts:370-381 | the new process is appended first, and the rest ends as `RunBashSpec` gives |
| Shell.Conclude | src/plugins/bash.ts:374-379 | a caught error is written to standard error, then the process is run unless it has an exit code |
| Shell.RunLine | src/plugins/bash.ts:371-373 | one new process with no arguments is appended, and the line runs on it as `BashSpec` gives for a fresh process |
| Shell.Report | src/plugins/bash.ts:374-376 | the caught message, prefixed with `bash: error: `, is written over standard error at its cursor, which stays put |
| Shell.RunUnlessSet | src/plugins/bash.ts:377-379 | `run` is called exactly when the exit code is unset, and then ends as `Launched` gives |
| Cmd.FlagToCamelCase | src/plugins/command.ts:59-74 | the loop computes `Camel`, which throws for a dash at the end |
| Cmd.Dashes | src/plugins/command.ts:63-65 | a run of n dashes |
| Cmd.CamelOfPlainWord | src/plugins/command.ts:59-74 | leading dashes are dropped and a word without dashes is kept |
| Cmd.CamelDash | src/plugins/command.ts:66-68 | a dash inside the flag upper-cases the character after it and is dropped |
| Cmd.ArgKinds | src/plugins/command.ts:138-153 | an argument is optional exactly when bracketed, variadic exactly when not bracketed and ending in `...`, never both; its key is its name lower-cased |
| Cmd.StripDashes | src/plugins/command.ts:189-191 | `--` or `-` at the start is dropped, once |
| Cmd.FlagValue | src/plugins/command.ts:214-231 | a flag reads at most the token after it, and only when that token exists |
| Cmd.ScanFlags | src/plugins/command.ts:205-233 | the scan of one token's flags never moves back and stays inside the arguments |
| Cmd.ScanFlagsLoop | src/plugins/command.ts:205-233 | the loop over a token's flags computes `ScanFlags` |
| Cmd.ScanArgvLoop | src/plugins/command.ts:197-237 | the loop over the arguments computes `ScanArgv` |
| Cmd.Values | src/plugins/command.ts:263 | `map.values()` lists the values in insertion order |
| Cmd.AssignLoops | src/plugins/command.ts:238-271 | the assignment loops compute `Assign` |
| Cmd.OptionLine | src/plugins/command.ts:282-293 | an option's help line starts with `  -name` and ends with a newline |
| Cmd.OptionsBlockLoop | src/plugins/command.ts:281-294 | the loop over the options computes `OptionsBlock` |
| Cmd.HelpListsHelpFlag | src/plugins/command.ts:275-298 | the help starts with `Usage: name ` and ends with the `--help` line when there are options |
| Cmd.ErrorCall | src/plugins/command.ts:107-115 | `error` throws a `CommandError` exactly when errors are not suppressed |
| Cmd.Command.constructor | src/plugins/command.ts:84-87 | a command starts with its name and description and no arguments or options |
| Cmd.Command.Argument | src/plugins/command.ts:138-153 | the parsed argument is appended, the options are unchanged |
| Cmd.Command.AddOption | src/plugins/command.ts:157-194 | the help record is appended; the short and long spellings map to the camel-cased key with no value, or the key's error leaves the table as it was |
| Cmd.Command.Categories | src/plugins/command.ts:90-101 | the loop sorts the arguments into required, optional and variadic, in order |
| Cmd.Command.GetHelpMessage | src/plugins/command.ts:275-298 | the help text is `HelpMessage` |
| Cmd.Command.Parse | src/plugins/command.ts:196-273 | the result is `ParseSpec`'s error, the help message, or the arguments |
| Cmd.Command.Execute | src/plugins/command.ts:102-135 | a parse error propagates with nothing written; a help request writes the help and a newline; a handler's error is written after `name: error: ` or rethrown |
| Cmd.Required | src/plugins/command.ts:98-99 | the required list holds only arguments neither optional nor variadic |
| Cmd.Optional | src/plugins/command.ts:94-95 | the optional list holds only optional arguments |
| Cmd.Variadic | src/plugins/command.ts:96-97 | the variadic list holds only variadic, non-optional arguments |
| Cmd.CategoriesPartition | src/plugins/command.ts:93-101 | each argument lands in exactly one category |
| Cmd.TokenFlags | src/plugins/command.ts:203-204 | the value after `=` is attached; `--name` names one flag and `-abc` one per character |
| Cmd.LoneDashSkipped | src/plugins/command.ts:202-205 | a lone `-` is neither a flag nor a positional |
| Cmd.UnknownFlagRefused | src/plugins/command.ts:206-212 | an unknown `h` or `help` asks for help; any other unknown flag is refused by name |
| Cmd.AttachedValueRefused | src/plugins/command.ts:227-228 | a flag that takes no value refuses one given with `=` |
| Cmd.FlagsReadOneToken | src/plugins/command.ts:214-231 | flags that take no value never read the next token |
| Cmd.Positionals | src/plugins/command.ts:234-236 | the positionals are at most the tokens |
| Cmd.ScanKeepsPositionals | src/plugins/command.ts:200-237 | with no flag taking a value, the positionals are the tokens not starting with `-`, in order |
| Cmd.RequiredInOrder | src/plugins/command.ts:242-244 | the k-th required argument gets the k-th positional |
| Cmd.OptionalInOrder | src/plugins/command.ts:250-256 | the optional arguments take the following positionals in order, `undefined` when none is left |
| Cmd.SurplusDropped | src/plugins/command.ts:250-256 | positionals beyond the optional arguments are dropped |
| Cmd.FillsKeep | src/plugins/command.ts:258-271 | the defaults never overwrite a key already set |
| Cmd.UnsetFlagIsFalse | src/plugins/command.ts:263-270 | a flag taking no value that was not given is `false` |
| Cmd.VariadicTakesRest | src/plugins/command.ts:245-248 | the first variadic argument takes all positionals after the required ones |
| Cmd.RequiredAssigned | src/plugins/command.ts:242-257 | without a variadic argument, each required argument keeps its positional |
| Cmd.MissingRequired | src/plugins/command.ts:238-240 | too few positionals name the first required argument without one |
| Coreutils.Visits | src/plugins/coreutils.ts:7-14 | the object itself is visited first and every visit is of an allocated object; without `recursive`, or for a non-directory, it is the only visit |
| Coreutils.EntryVisits | src/plugins/coreutils.ts:10-12 | the walks of a directory's entries visit only allocated objects |
| Coreutils.EntryVisitsReach | src/plugins/coreutils.ts:10-12 | a finished walk over the entries visits each entry under the joined path |
| Coreutils.VisitsEveryEntry | src/plugins/coreutils.ts:7-14 | a finished recursive walk of a directory visits it first, then every entry under the directory's path joined with the entry's name |
| Coreutils.VisitsOverflow | src/plugins/coreutils.ts:9-12 | a walk out of stack depth visits the directory and reports the overflow |
| Coreutils.Owned | src/plugins/coreutils.ts:26-48 | the callback sets the group, the owner or keeps it, and the change time; mode and link count are kept |
| Coreutils.ChownEach | src/plugins/coreutils.ts:25-49 | the callbacks keep every id and every object's contents |
| Coreutils.ChownEachSets | src/plugins/coreutils.ts:25-49 | exactly the visited objects get the new owner and group; a hard-linked object reached twice ends as if reached once |
| Coreutils.Finish | src/plugins/coreutils.ts:7-14 | the command succeeds exactly when the walk finished |
| Coreutils.Recolor | src/plugins/coreutils.ts:25-49 | the walk keeps the tree rooted and every id allocated |
| Coreutils.RecolorReaches | src/plugins/coreutils.ts:7-49 | a finished walk succeeds and changes the owner and group of the object and, when recursive, of each entry |
| Coreutils.RecolorOnlyNamed | src/plugins/coreutils.ts:8-9 | without recursion only the object itself changes |
| Coreutils.IdArg | src/plugins/coreutils.ts:16-18 | the argument is a name exactly when `parseInt` gives NaN, and otherwise the number `parseInt` reads |
| Coreutils.Chgrp | src/plugins/coreutils.ts:20-28 | `chgrp` keeps the tree rooted and every id allocated |
| Coreutils.ChgrpNeverRecurses | src/plugins/coreutils.ts:27 | `args.R === undefined` is always false, so only the named object gets the group, its owner kept |
| Coreutils.Chown | src/plugins/coreutils.ts:30-51 | `chown` keeps the tree rooted and every id allocated |
| Coreutils.ChownReaches | src/plugins/coreutils.ts:34-50 | `chown -R` gives the object and each entry the owner and group; without `-R` only the object |
| Coreutils.ChownIsRecolor | src/plugins/coreutils.ts:47-49 | once owner, group and object are found, `chown` is the walk with its callback |
| Coreutils.ChownOnlyNamed | src/plugins/coreutils.ts:47-49 | without `-R` no other object changes |
| Coreutils.LsOperands | src/plugins/coreutils.ts:113 | given operands are listed as they are |
| Coreutils.Kept | src/plugins/coreutils.ts:121-123 | exactly the visits whose path does not start with `.` are kept, or all with `-a` |
| Coreutils.DirListing | src/plugins/coreutils.ts:119-125 | a directory's listing names only allocated objects |
| Coreutils.LsFiles | src/plugins/coreutils.ts:112-129 | the `files` list names only allocated objects |
| Coreutils.LsDirectoryNamesEmpty | src/plugins/coreutils.ts:117-125 | `ls DIR` lists each entry under the empty path |
| Coreutils.Unnamed | src/plugins/coreutils.ts:120-122 | each entry's object paired with the empty path |
| Coreutils.DirListingShallow | src/plugins/coreutils.ts:119-125 | without `-a` or `-R` a directory's listing is its entries under the empty path |
| Coreutils.LastSlash | src/plugins/coreutils.ts:148-160 | `lastIndexOf('/')` is the position of the last slash, or -1 without one |
| Coreutils.ListedName | src/plugins/coreutils.ts:160 | the listed name is the path's end after its last slash, and holds no slash |
| Coreutils.LsModeShape | src/plugins/coreutils.ts:133-143 | the column is the type letter (or `undefined`) then nine letters, the k-th being `rwxrwxrwx`[k] exactly when its bit of `mode >> 3` is set |
| Coreutils.PermsLow | src/plugins/coreutils.ts:135-143 | the permission letters depend only on the low nine bits |
| Coreutils.ParseMode755 | src/fs.ts:205-219 | `parseModeArg('755')` reads octal and shifts it into place |
| Coreutils.ChmodBits | src/fs.ts:384-389 | `chmod` shifts the parsed mode once more |
| Coreutils.PermsOf168 | src/plugins/coreutils.ts:135-143 | the bits `0o550` show as `r-xr-x---` |
| Coreutils.ChmodThenLs | src/plugins/coreutils.ts:53-59 | `chmod 755` then `ls -l` shows `undefinedr-xr-x---` for a regular file |
| Coreutils.Longest | src/plugins/coreutils.ts:161 | the width is at least every name's length in UTF-16 units |
| Coreutils.PerLine | src/plugins/coreutils.ts:161-162 | at least one name per line: 80 divided by the width, or 1 with no names or a width over 80 |
| Coreutils.ColumnsAreCells | src/plugins/coreutils.ts:163-173 | the line breaks after exactly every `perLine`-th name |
| Coreutils.WithNewline | src/plugins/coreutils.ts:174-176 | the output ends with a newline, added only when missing |
| Coreutils.ShortListing | src/plugins/coreutils.ts:160-176 | `process.stdout` becomes the string it showed (`[object Object]` for the stream) followed by the columns and a final newline; with no name to list and the property still the stream, `endsWith` throws a `TypeError` |
| Coreutils.LsShort | src/plugins/coreutils.ts:163-176 | the loop over the names, adding to `process.stdout`, computes `ShortListing` |
| Coreutils.Ls | src/plugins/coreutils.ts:105-178 | `ls` without `-l`, when it succeeds, leaves in `process.stdout` a string that starts with what the property showed and ends with a newline |
| Coreutils.LsDirectoryOnStream | src/plugins/coreutils.ts:160-176 | `ls DIR` on a process whose `stdout` is its stream throws the `TypeError` of `endsWith` for an empty directory, and otherwise leaves a string starting with `[object Object]` |
| Coreutils.UnlinkKeepsKinds | src/fs.ts:813-822 | `unlink` keeps every id allocated and every directory a directory |
| Coreutils.Dropped | src/plugins/coreutils.ts:217-229 | the unlink's result, its returned object dropped |
| Coreutils.UnlinkTree | src/plugins/coreutils.ts:216-218 | `rm -r`'s walk keeps the tree rooted, ids allocated and directories directories |
| Coreutils.Descend | src/plugins/coreutils.ts:9-12 | the walk below an unlinked object keeps the same |
| Coreutils.UnlinkEntries | src/plugins/coreutils.ts:10-12 | the walk over a directory's entries keeps the same |
| Coreutils.EntryStep | src/plugins/coreutils.ts:10-12 | one entry's walk keeps the same |
| Coreutils.RmOne | src/plugins/coreutils.ts:213-230 | `rm` of one operand keeps the tree rooted, ids allocated and directories directories |
| Coreutils.RmFrom | src/plugins/coreutils.ts:212-231 | `rm` over its operands keeps the same |
| Coreutils.RmRefusesDirectory | src/plugins/coreutils.ts:219-227 | a directory without `-r` is refused, without `-d` or when non-empty, and nothing changes |
| Coreutils.RmNeverRemoves | src/plugins/coreutils.ts:213-230 | on a tree whose names hold no slash, every `rm` fails and changes nothing |
| Coreutils.RmFromNeverRemoves | src/plugins/coreutils.ts:212-231 | on such a tree, `rm` with any operand fails and changes nothing |
| Coreutils.RmUnlinksRootKey | src/plugins/coreutils.ts:228-230 | when the root holds the normalized path as a name, `rm` of a non-directory removes that entry |
| Coreutils.RmdirOne | src/plugins/coreutils.ts:238-247 | `rmdir` of one operand keeps the tree rooted |
| Coreutils.RmdirFrom | src/plugins/coreutils.ts:237-248 | `rmdir` over its operands keeps the tree rooted |
| Coreutils.RmdirOutcomes | src/plugins/coreutils.ts:238-247 | a non-directory and a non-empty directory are refused naming the operand; on a tree whose names hold no slash nothing is ever removed |
| Coreutils.UnlinkTreeOn | src/plugins/coreutils.ts:216-218 | the callback on the file system ends as `UnlinkTree` gives |
| Coreutils.DescendOn | src/plugins/coreutils.ts:9-12 | the walk on the file system ends as `Descend` gives |
| Coreutils.UnlinkEntriesOn | src/plugins/coreutils.ts:10-12 | the loop over the entries ends as `UnlinkEntries` gives |
| Coreutils.EntryOn | src/plugins/coreutils.ts:11 | one entry's walk ends as `EntryStep` gives |
| Coreutils.RmOneOn | src/plugins/coreutils.ts:213-230 | one operand ends as `RmOne` gives |
| Coreutils.Rm | src/plugins/coreutils.ts:207-232 | `rm` on the file system ends as `RmFrom` gives |
| Coreutils.Rmdir | src/plugins/coreutils.ts:234-249 | `rmdir` on the file system ends as `RmdirFrom` gives |
| Coreutils.CatCollects | src/plugins/coreutils.ts:342-349 | `cat` fails with the first failing operand's error, otherwise collects the pieces in order |
| Coreutils.CatDropsLastByte | src/plugins/coreutils.ts:347 | each regular file comes out without its last byte |
| Coreutils.Cat | src/plugins/coreutils.ts:339-351 | the first failing operand's error, or else `process.stdout` becomes the string it showed (`[object Object]` for the stream) followed by the collected pieces |
| NodeFs.SizeOf | src/fs.ts:405-407 | the `size` getter: a file's byte count, a directory's entry count, 0 for a device |
| NodeFs.CopyFile | plugins/node/src/modules/fs.ts:33-41 | `copyFileSync` keeps the tree rooted, every id allocated and every name slash-free |
| NodeFs.CopyInto | plugins/node/src/modules/fs.ts:40 | the write into `dest` keeps the same |
| NodeFs.CopyFileOverwritesStart | plugins/node/src/modules/fs.ts:40 | the text of `src` goes over the start of `dest`, whose rest and length stay; the change time is the clock's |
| NodeFs.CopyFileLongerRefused | plugins/node/src/modules/fs.ts:40 | a copy longer than `dest` throws a `RangeError` and changes nothing |
| NodeFs.CopyFileCloneForceRefused | plugins/node/src/modules/fs.ts:37-39 | `COPYFILE_FICLONE_FORCE` always throws and changes nothing |
| NodeFs.Truncate | plugins/node/src/modules/fs.ts:69 | only the file's data changes, and it stays a regular file |
| NodeFs.TruncateKeepsPrefix | plugins/node/src/modules/fs.ts:69 | the new data is a prefix of the old, of the length `slice(0, len)` gives, negative lengths counting from the end |
| NodeFs.TruncateDefaultEmpties | plugins/node/src/modules/fs.ts:219-222 | without a length the file is emptied |
| NodeFs.Rename | plugins/node/src/modules/fs.ts:171-176 | `renameSync` keeps the tree rooted |
| NodeFs.Move | plugins/node/src/modules/fs.ts:174-175 | unlinking then linking keeps the tree rooted |
| NodeFs.RenameAlwaysFails | plugins/node/src/modules/fs.ts:171-176 | on a tree whose names hold no slash, `renameSync` always throws and changes nothing |
| NodeFs.MoveFails | plugins/node/src/modules/fs.ts:174 | the `unlink` of the parsed base name always throws there |
| NodeFs.Rmdir | plugins/node/src/modules/fs.ts:178-186 | `rmdirSync` keeps the tree rooted and every id allocated |
| NodeFs.RmdirAlwaysFails | plugins/node/src/modules/fs.ts:178-186 | a non-directory and a non-empty directory are refused with their messages, and every `rmdirSync` fails, changing nothing |
| NodeFs.StatUndefinedWithoutEmptyName | plugins/node/src/modules/fs.ts:196-199 | with `throwIfNoEntry` false, a stat is `undefined` unless the root has an entry named `''` |
| NodeFs.StatReportsNode | plugins/node/src/modules/fs.ts:100-106 | a stat that finds its object reports its owner, group, link count and size |
| NodeFs.ViewCopy | plugins/node/src/modules/fs.ts:151-154 | the buffer keeps its length |
| NodeFs.SetCopy | plugins/node/src/modules/fs.ts:157 | `set(data, p)` puts the data at p and keeps the rest exactly when it fits, and changes nothing otherwise |
| NodeFs.ViewCopyFromStart | plugins/node/src/modules/fs.ts:152-154 | read at position 0 into a `DataView`, the data lands at the start |
| NodeFs.ViewCopySkips | plugins/node/src/modules/fs.ts:152-154 | read at position p > 0, the first p bytes are lost and the rest stay at their own index |
| NodeFs.ReadSync | plugins/node/src/modules/fs.ts:148-160 | `readSync` returns `length` whatever was read; the buffer gets the copy for its kind, or nothing on a descriptor error |
| NodeFs.CopyToView | plugins/node/src/modules/fs.ts:152-154 | the loop computes `ViewCopy` |
| NodeFs.CopyToArray | plugins/node/src/modules/fs.ts:157 | the copy computes `SetCopy` |
| NodeFs.CloseSync | plugins/node/src/modules/fs.ts:29-31 | the slot becomes null, so that descriptor is no longer accessible; every other descriptor is as before |
| NodeFs.OpenSync | plugins/node/src/modules/fs.ts:129-131 | success returns the new table length, whose last slot holds the object; failure changes nothing |
| NodeFs.ExistsSync | plugins/node/src/modules/fs.ts:43-45 | `existsSync` is the root's `exists`, true only when the root has an entry named `''` |
| NodeFs.CopyFileSync | plugins/node/src/modules/fs.ts:33-41 | the file system ends as `CopyFile` gives |
| NodeFs.CopyChecks | plugins/node/src/modules/fs.ts:34-39 | the two refusals of `copyFileSync` |
| NodeFs.CopyIntoSync | plugins/node/src/modules/fs.ts:40 | the write ends as `CopyInto` gives |
| NodeFs.FtruncateSync | plugins/node/src/modules/fs.ts:67-70 | the file system ends as `Ftruncate` gives |
| NodeFs.TruncateSync | plugins/node/src/modules/fs.ts:219-222 | the file system ends as `TruncatePath` gives |
| NodeFs.RenameSync | plugins/node/src/modules/fs.ts:171-176 | the file system ends as `Rename` gives |
| NodeFs.MoveSync | plugins/node/src/modules/fs.ts:174-175 | the file system ends as `Move` gives |
| NodeFs.RmdirSync | plugins/node/src/modules/fs.ts:178-186 | the file system ends as `Rmdir` gives |
| NodeFs.StatSync | plugins/node/src/modules/fs.ts:96-106 | the stat is `StatPath`'s |
| NodePath.LastSegment | plugins/node/modules/path.ts:21-22 | the last piece of `split(c)` holds no `c`, ends the path, follows its last `c`, and is the whole path exactly when there is no `c` |
| NodePath.Basename | plugins/node/modules/path.ts:20-27 | the last segment after `sep`, without the suffix exactly when it ends with it, even when that empties it |
| NodePath.Dirname | plugins/node/modules/path.ts:29-31 | with a `/`, the result, a `/` and the last piece give the path back; without one, the empty string |
| NodePath.Extname | plugins/node/modules/path.ts:33-40 | empty exactly when there is no dot; otherwise the path's end from its FIRST dot |
| NodePath.Normalize | plugins/node/modules/path.ts:56-68 | the loop with its push/pop list computes `NormalizeSpec` |
| NodePath.JoinPaths | plugins/node/modules/path.ts:52-54 | `join` is already normal and never starts with a separator |
| NodePath.NormalizedSegmentsKept | plugins/node/modules/path.ts:58-66 | the kept segments are never empty, `.`, `..`, or hold a separator |
| NodePath.NormalizeNoLeadingSeparator | plugins/node/modules/path.ts:56-68 | the result never starts with a separator: `/a/../b` gives `b` |
| NodePath.NormalizeIdempotent | plugins/node/modules/path.ts:56-68 | normalizing twice is normalizing once, for both receivers |
| NodePath.NormalizeDropsRoot | plugins/node/modules/path.ts:56-68 | an absolute clean path loses its leading `/` |
| NodePath.Resolve | plugins/node/modules/path.ts:78-87 | the first absolute accumulation of `paths[n-1]` … `paths[1]`, never `paths[0]`, or `cwd` followed by the whole accumulation |
| NodePath.DirnameBasename | plugins/node/modules/path.ts:20-31 | `dirname`, `/` and `basename` of a path with a `/` give it back |
| NodePath.DirnameOfSingleSegments | plugins/node/modules/path.ts:29-31 | `/a` and `a` both have the empty `dirname` |
| NodePath.ExtnameFromFirstDot | plugins/node/modules/path.ts:33-40 | `a.tar.gz` gives `.tar.gz` |
| NodePath.BasenameSuffixEmpties | plugins/node/modules/path.ts:23-25 | a suffix equal to the base name empties it |
| NodePath.IsAbsoluteDiffers | plugins/node/modules/path.ts:100-119 | `posix` takes `/x` as absolute and not `C:\x`; `win32` the reverse |
| NodeUtil.FormatWithOptions | plugins/node/src/modules/util.ts:42-111 | the `while` loop computes `Scan` |
| NodeUtil.Percents | plugins/node/src/modules/util.ts:50-55 | no more arguments than `%` characters are used, and there are at most as many as characters |
| NodeUtil.ScanNoArgs | plugins/node/src/modules/util.ts:50-110 | with no arguments the format comes back as it is, `%` included |
| NodeUtil.ScanPlain | plugins/node/src/modules/util.ts:105-110 | a format without `%` comes back as it is, whatever the arguments |
| NodeUtil.ExtraArgsIgnored | plugins/node/src/modules/util.ts:50-110 | arguments beyond the number of `%` are never printed |
| NodeUtil.UnknownDirectiveDropped | plugins/node/src/modules/util.ts:102-104 | `%` and a letter that is no directive print nothing and use no argument |
| NodeUtil.StringDirectivePrintsIndex | plugins/node/src/modules/util.ts:63-65 | `%s` of a primitive other than a bigint or `-0` prints the index of the `s`, not the value |
| NodeUtil.InspectThrows | plugins/node/src/modules/util.ts:61-62 | `%s` of an object or function, and `%o`/`%O` of anything, throw `util.inspect is not supported in fake-node` |
| NodeUtil.ToUSVString | plugins/node/src/modules/util.ts:293-304 | the length is kept; each unit in [0xD800, 0xDFFF) becomes U+FFFD and every other unit is kept |
| NodeUtil.ToUSVStringTwice | plugins/node/src/modules/util.ts:293-304 | the result holds no unit to replace, so a second call changes nothing |
| Terminal.TabStop | plugins/terminal/src/terminal.ts:326-327 | a tab moves to the first multiple of `tabSize` at or after the column |
| Terminal.TabIdempotent | plugins/terminal/src/terminal.ts:326-327 | a second tab at a tab stop stays there |
| Terminal.Args | plugins/terminal/src/terminal.ts:136 | one parameter per `;`-separated piece, at least one |
| Terminal.ArgsOfEmpty | plugins/terminal/src/terminal.ts:136 | no parameter text gives one missing parameter |
| Terminal.ArgsOfNat | plugins/terminal/src/terminal.ts:136 | a decimal number is read back as that number |
| Terminal.ArgsOfPair | plugins/terminal/src/terminal.ts:136 | `m;n` is read back as the two numbers |
| Terminal.Blanks | plugins/terminal/src/terminal.ts:88 | a row of n single-space cells |
| Terminal.SliceAt | plugins/terminal/src/terminal.ts:244-253 | a `slice` bound is clamped to the length |
| Terminal.Erase | plugins/terminal/src/terminal.ts:241-285 | emptying cells keeps the number of rows |
| Terminal.Cleared | plugins/terminal/src/terminal.ts:241-243 | the row keeps its length |
| Terminal.BlankRows | plugins/terminal/src/terminal.ts:244-263 | blanking rows keeps their number |
| Terminal.EraseDisplay | plugins/terminal/src/terminal.ts:239-271 | ERASE IN PAGE keeps the number of rows |
| Terminal.EraseLine | plugins/terminal/src/terminal.ts:272-286 | ERASE IN LINE keeps the number of rows |
| Terminal.Put | plugins/terminal/src/terminal.ts:334-343 | a missing row throws; a negative or NaN column hangs; otherwise the row grows with blanks to reach the column, the cell gets the text, and nothing else changes |
| Terminal.SgrFace | plugins/terminal/src/terminal.ts:138-185 | the codes below 30 leave the overline alone |
| Terminal.SgrColor | plugins/terminal/src/terminal.ts:186-218 | the colour codes leave the overline alone |
| Terminal.SgrMark | plugins/terminal/src/terminal.ts:198-213 | among the codes 50-89 only 53 sets the overline |
| Terminal.Motion | plugins/terminal/src/terminal.ts:220-291 | the cursor movements, erasures and scrolls change only the grid, the cursor and the scroll row, and keep the number of rows |
| Terminal.Clamp | plugins/terminal/src/terminal.ts:292-295 | a cursor below the last row moves onto it and the page scrolls by as many rows, keeping its line of text; otherwise nothing changes |
| Terminal.Csi | plugins/terminal/src/terminal.ts:135-297 | `drawCSI` changes only the grid, cursor, scroll row and attributes, and keeps the number of rows |
| Terminal.Modifier | plugins/terminal/src/terminal.ts:373 | one plus a bit for each of Shift, Alt, Ctrl and Meta, exactly when held |
| Terminal.CtrlLetters | plugins/terminal/src/terminal.ts:375-376 | Ctrl with a capital gives its control character; with a small letter, a printable one from `!` to `:` |
| Terminal.EscFeIsC1 | plugins/terminal/src/terminal.ts:307-311 | `ESC` and a character from 0x40 to 0x5F acts as the 8-bit control 0x40 higher |
| Terminal.OnlyEightBitStEndsString | plugins/terminal/src/terminal.ts:307-319 | only 0x9C ends a control string; `ESC \` leaves it open |
| Terminal.StringCollects | plugins/terminal/src/terminal.ts:314-319 | inside a string every character but ESC and 0x9C is collected |
| Terminal.CsiSticks | plugins/terminal/src/terminal.ts:301-306 | a control sequence is never left and its parameters only grow |
| Terminal.CsiParamsGrow | plugins/terminal/src/terminal.ts:302-303 | parameter bytes are appended to the parameters |
| Terminal.DrawAllConcat | plugins/terminal/src/terminal.ts:362-367 | writing two texts in turn draws what writing them together draws |
| Terminal.SgrReset | plugins/terminal/src/terminal.ts:138-151 | SGR 0 or no parameter restores a new terminal's attributes |
| Terminal.SgrWeightToggles | plugins/terminal/src/terminal.ts:152-173 | bold and light are undone by 22 |
| Terminal.SgrSlantToggles | plugins/terminal/src/terminal.ts:156-185 | italic is undone by 23, crossed out by 29 |
| Terminal.SgrLineToggles | plugins/terminal/src/terminal.ts:158-177 | underline and double underline are undone by 24 |
| Terminal.SgrBlinkToggles | plugins/terminal/src/terminal.ts:160-179 | blink and fast blink are undone by 25 |
| Terminal.SgrShowToggles | plugins/terminal/src/terminal.ts:164-183 | inverse is undone by 27, hidden by 28 |
| Terminal.SgrFrameToggles | plugins/terminal/src/terminal.ts:198-203 | framed by 51 or 52 is undone by 54 |
| Terminal.SgrAlignToggles | plugins/terminal/src/terminal.ts:208-213 | superscript and subscript are undone by 75 |
| Terminal.SgrForeground | plugins/terminal/src/terminal.ts:186-215 | the foreground codes pick from the palettes; 39 restores the default |
| Terminal.SgrBackground | plugins/terminal/src/terminal.ts:192-217 | the background codes pick from the palettes; 49 restores the default |
| Terminal.OverlineOnlyResets | plugins/terminal/src/terminal.ts:137-218 | only SGR 0 clears the overline |
| Terminal.CursorUpDown | plugins/terminal/src/terminal.ts:220-295 | CURSOR UP moves n rows up and CURSOR DOWN n rows down, scrolling past the last row; 0 moves by 0 |
| Terminal.CupIgnoresColumn | plugins/terminal/src/terminal.ts:236-238 | CURSOR POSITION `m;n` puts the cursor in row m and column m; `f` is the same |
| Terminal.EchoArrowUp | plugins/terminal/src/terminal.ts:386-387 | ArrowUp's text moves the cursor up one row and leaves the terminal in a control sequence |
| Terminal.EchoHome | plugins/terminal/src/terminal.ts:396-397 | Home's text moves the cursor to the origin |
| Terminal.PrintKeepsCursor | plugins/terminal/src/terminal.ts:330-343 | a printable character, line feed and carriage return included, goes into the cursor's cell and the cursor does not move |
| Terminal.EraseBelow | plugins/terminal/src/terminal.ts:240-248 | ERASE IN PAGE empties the cursor's row from the cursor and blanks the rows below, keeping those above |
| Terminal.BlankGrid | plugins/terminal/src/terminal.ts:83-94 | a new grid is `height` rows of `width` blank cells |
| Terminal.Initial | plugins/terminal/src/terminal.ts:43-94 | a new terminal is outside any escape, string or control sequence, with plain attributes |
| Terminal.Terminal.constructor | plugins/terminal/src/terminal.ts:70-98 | the options or the defaults 24, 80, 8 and `DEFAULT_COLORS`, and the initial state |
| Terminal.Terminal.DrawC1 | plugins/terminal/src/terminal.ts:100-108 | the state becomes `C1`'s |
| Terminal.Terminal.EraseOn | plugins/terminal/src/terminal.ts:241-285 | the loop leaves the grid as `Erase` gives |
| Terminal.Terminal.BlankLine | plugins/terminal/src/terminal.ts:245-247 | the row becomes blanks of its own length |
| Terminal.Terminal.BlankOn | plugins/terminal/src/terminal.ts:244-263 | the rows become `BlankRows`'s |
| Terminal.Terminal.EraseDisplayOn | plugins/terminal/src/terminal.ts:239-271 | the grid becomes `EraseDisplay`'s |
| Terminal.Terminal.EraseLineOn | plugins/terminal/src/terminal.ts:272-286 | the grid becomes `EraseLine`'s |
| Terminal.Terminal.MoveOn | plugins/terminal/src/terminal.ts:220-291 | the state becomes `Motion`'s |
| Terminal.Terminal.DrawCSI | plugins/terminal/src/terminal.ts:135-297 | the state becomes `Csi`'s for the collected parameters |
| Terminal.Terminal.ClampRow | plugins/terminal/src/terminal.ts:292-295 | a cursor at or below the last row moves to the last row and the scroll offset grows by the same amount; otherwise nothing changes |
| Terminal.Terminal.PutOn | plugins/terminal/src/terminal.ts:334-343 | the grid becomes `Put`'s |
| Terminal.Terminal.DrawChar | plugins/terminal/src/terminal.ts:299-360 | the state becomes `Draw`'s |
| Terminal.Terminal.Write | plugins/terminal/src/terminal.ts:362-367 | the text is appended and the state becomes `DrawAll`'s |
| Terminal.Terminal.Onkey | plugins/terminal/src/terminal.ts:369-406 | a key with text writes it to stdin, whose listeners become due; another key changes nothing |
| Utf8.DecodeEncode | src/fs.ts:183-186 | text written as UTF-8 and read back with a `TextDecoder` is itself, unless it starts with a byte order mark |
| Utf8.BomIsDropped | src/fs.ts:183-186 | a leading byte order mark is lost on the way through |
| Utf8.BomBytes | src/fs.ts:183-186 | only U+FEFF encodes to the bytes EF BB BF |
| Utf8.EncodeAppend | src/fs.ts:183-186 | encoding distributes over concatenation |
| Utf8.EncodeAscii | src/fs.ts:183-186 | ASCII text encodes to one byte per character |
| Utf8.DropLastByte | src/fs.ts:516 | read with the default length -1, text ending in an ASCII character loses exactly that character |

## Left out

- Text.Slice: strings are sequences of Unicode code points, not of UTF-16 code units, so lengths and indices differ from the source for characters outside the Basic Multilingual Plane; the same holds for the positions of `Streams.Stream` and the scan indices of `NodeUtil`.
- ShellLex.FromCharCode: a code in 0xD800-0xDFFF gives U+FFFD, where `String.fromCharCode` gives a lone surrogate, which a string of code points cannot hold.
- Text.ToUpper: only ASCII letters are mapped, and the same holds for `Text.ToLower`; JavaScript's full Unicode case mapping is not modelled.
- Vfs.Link: every directory's `rootDir` is the root of the tree, so the assignment `file.rootDir = this.rootDir` that `link` makes for a linked `Directory` is not modelled; a path outside `absPath` does go on to the root's `link`, which counts the link a second time.
- Vfs.Get: the `noDereference` path and the `accessing uninitialized symbolic link` error are not modelled, because every symbolic link the model creates is already resolved.
- Utf8.Decode: encodings other than `utf8` are not modelled; every text written or read goes through UTF-8.
- NodeFs.Rename: plugins/node/src/modules/path.ts is not part of this model; the POSIX `dirname` and `basename` of `NodePath` stand in for the `./path` module that the fs module imports, here and in `NodeFs.RenameSync` and `NodeFs.MoveSync`.
- NodeFs.StatSync: the undeclared global `__fakeNode__` is taken to be the same runtime as `__fakeNode_system__`, so both reach the same file system. The `bigint` option is not a parameter: the stats hold the values of the `BigIntStats` form as integers, including the `…Ns` fields the plain form leaves unset, and `BigInt` values are not told apart from numbers.
- NodeFs: the other wrappers of the fs module (`appendFileSync`, `chmodSync` and the like, which delegate to the modelled operations, and the functions that only throw "not supported") are not modelled.
- Streams.Stream.Write: the listener calls are returned, not performed, so a `Forward` listener's write into its target stream does not happen; `Shell.RunAlias`, `Shell.RunBuiltin` (for `pwd` and `[`) and `Shell.RunBash` discard those calls, so output copied to attached streams is lost.
- Shell.Named: names inherited from `Object.prototype` (`toString`, `constructor`, `valueOf`, `hasOwnProperty`, `__proto__`) are not builtins in the model; in the source `runBash("toString")` returns with exit code 0 and `__proto__` fails with "is not a function", while the model tries to run them as programs; `builtin toString` differs in the same way. Every other plain-object lookup is modelled on own keys only in the same way: `FsMode.FlagNames` gives `undefined` for `toString` or `constructor`, where `FLAGS[flag]` gives the inherited function, and the command parser's `key in out` tests in `Cmd.Command.Parse` treat an argument or option key such as `toString` as unset, where the source finds it inherited and skips its default.
- Shell.RunSpec: running a device stops at `Execute(argv, id)`, because the device's executor is a closure supplied by whoever registered it.
- Shell.BashSpec: the depth of nested `.`, `eval`, `source` and shebang runs is bounded by a fuel parameter, which stands for JavaScript's stack limit.
- Shell: `getPS1` and `extractCommandsPipeline` are not modelled (the latter's only call site is commented out); the plugin's registration of `/bin/bash` and the `/bin/sh` link is not modelled.
- Cmd.Command.Execute: the required, optional and variadic categories are computed when the command runs, not when `func()` is called, so an `argument()` registered after `func()` is seen by the model but not by the source.
- Coreutils.Visits: recursion depth is bounded by a fuel parameter.
- Coreutils.Chgrp: a group row whose id field does not parse gives the gid `NaN`, which the source stores through `file.chown` before succeeding; object metadata holds integers here, so the model reports the error `NAN_ID` and changes nothing instead.
- Coreutils.Chown: the same holds for an owner or group id that does not parse: the source stores `NaN`, the model reports `NAN_ID` and changes nothing.
- Coreutils.Ls: with `-l` the rows are added to `process.stdout` as one string; only the mode column of those rows is modelled (`Coreutils.LsMode`).
- Coreutils.LsMode: of the `ls -l` columns only the mode string is modelled; owners, sizes and dates are not.
- Coreutils: `cp`, `mv`, `ln`, `mkdir`, `chmod`, `dircolors`, `touch` and `shred` are not modelled (thin wrappers over modelled file-system operations, or built on dates and random bytes), nor the plugin's registration of the `/bin` devices.
- FsNode.Utimes: the times arrive already converted; `parseTimeArg` and the clock are not modelled, and neither is `statfs`.
- Sys.System.constructor: the file system is passed in; the default tree the constructor writes (src/index.ts:42-94, including `/dev/urandom`, which uses the platform's random bytes) is not modelled.
- Sys.Process.constructor: process ids, times and other values the source takes from the clock are parameters.
- FsFormat.Export: recursion over the tree is bounded by a fuel parameter.
- Terminal.Terminal.constructor: requires a tab size other than 0 and, when colours are given, eight of each kind; the write listeners the constructor registers on stdin, stdout and stderr are not modelled, and only stdin is kept. Each of them is the unbound method `this.write`, so in the source a write to any of those streams calls it with `this` undefined and throws a `TypeError`; `Terminal.Terminal.Onkey` returns the stdin listeners as due where the source would throw from the registered one.
- Terminal.Terminal.PutOn: drawing at a negative column, where the source appends blank cells forever, reports `Hung` instead of looping.
- Terminal.Terminal.Write: `getCSIColor` is the `csiColor` parameter; the styling of the `span` cells is not modelled, only the attributes; numbers above 2^53 and `Infinity` in parameters are not modelled.
- Terminal.Terminal.Onkey: a Ctrl mapping that would produce a code in the surrogate range is not modelled, as a string of code points cannot hold it.
