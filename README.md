# rocket-pastebin: identifier codec and paste store

A Dafny model of the core of a minimal pastebin written in Rust on the Rocket
framework. Clients POST a body and get back the URL of a fresh paste; a GET on
`/<id>` returns the stored bytes; a GET on `/` lists every paste with a short
preview of its first line.

- `wrappers.dfy` (module `Wrappers`): `Option` and `Result`.
- `paste_id.dfy` (module `PasteIds`, `src/paste_id.rs`): the 62-symbol
  alphabet (`[0-9]`, then `[a-z]`, then `[A-Z]`), `base62_char` as the
  imperative method `Base62Char` proved against the closed form `Base62`, the
  alphabet check `IsBase62`, `from_param` as `FromParam`, `Display::fmt` as
  `Display`, and `PasteID::new` as the loop `New`. The nested helpers
  `chars_len` and `char_off` (`src/paste_id.rs:11-18`) are the functions
  `CharsLen` and `CharOff`, which `Base62Char` calls.
- `pastebin.dfy` (module `Pastebin`, `src/main.rs`): the upload directory as
  the class `PasteStore`, whose field `files` maps a path (`"upload/" + id`)
  to the bytes of the file; the handlers `upload`, `retrieve` and `index`
  (without its template) as its methods; `read_line` as the function
  `FirstLine`; the snippet/ellipsis rule as `Preview`. `UploadKey` builds
  the path `"upload/" + id` used by both `upload` and `retrieve`
  (`src/main.rs:62`, `69`). `IsCharBoundary` and `HasPreview` state when
  the slice `[0..24]` at `src/main.rs:49` does not panic.

Environment parts are parameters:
- The thread-local random generator is the sequence `draws` of `usize` values, of which `New` reads the first `size`.
- The order in which the directory is enumerated is the sequence `names` given to `Index`.
- The upload directory's initial contents are given to the constructor.

Choices the code settles:
- The listing preview works on bytes. The first line keeps its `\n` terminator, both when its length is compared with 24 and in a short snippet.
- Slicing `[0..24]` panics unless byte 24 starts a UTF-8 character. That condition (`HasPreview`) is a precondition of `Preview`, `Summarize` and `Index`.
- A comment at `src/paste_id.rs:62-63` lists the symbol sets as `[0-9], [A-Z], [a-z]`. The code orders them `[0-9], [a-z], [A-Z]`, and the model follows the code.

## Model

| member | source | states |
|---|---|---|
| `PasteIds.Base62` | src/paste_id.rs:20-34 | the ordinal mapping in closed form: `'0'+i` below 10, `'a'+(i-10)` below 36, `'A'+(i-36)` below 62; every result is an alphabet symbol |
| `PasteIds.Base62Char` | src/paste_id.rs:10-36 | stepping `posn` through the three ranges yields exactly `Base62(idx)`, an alphabet symbol; an index of 62 or more is excluded, as the source panics there |
| `PasteIds.Base62Injective` | src/paste_id.rs:10-36 | two ordinals below 62 with the same symbol are equal |
| `PasteIds.Base62Onto` | src/paste_id.rs:10-45 | a character is the symbol of some ordinal below 62 if and only if it passes the per-character alphabet test; with injectivity, a bijection of 0..61 onto the alphabet |
| `PasteIds.IsBase62IffImage` | src/paste_id.rs:39-45 | a string passes `is_base62` if and only if each of its characters is an output of `base62_char` |
| `PasteIds.IsBase62RejectsTraversal` | src/paste_id.rs:39-45 | a string containing `/`, `.`, a space or any non-ASCII character fails the check |
| `PasteIds.FromParam` | src/paste_id.rs:52-57 | the result is `Ok` exactly when the segment passes the check; `Ok` wraps the identical segment and `Err` returns the identical segment |
| `PasteIds.DisplayFromParam` | src/paste_id.rs:52-80 | for a valid segment, validation succeeds and displaying its result gives the segment back |
| `PasteIds.FromParamDisplay` | src/paste_id.rs:52-80 | displaying an identifier over the alphabet and validating the text gives the same identifier back |
| `PasteIds.New` | src/paste_id.rs:67-74 | the identifier has exactly `size` characters; character `k` is `base62_char(draws[k] % 62)`; hence it passes the alphabet check |
| `Pastebin.UploadKeyInjective` | src/main.rs:62-69 | distinct identifiers are stored under distinct paths |
| `Pastebin.UploadKeyStaysInDir` | src/main.rs:67-70 | the path of a validated identifier starts with `upload/` and has no `/` or `.` after it |
| `Pastebin.FirstLine` | src/main.rs:42-44 | the line read is a prefix of the content; no terminator occurs before its last byte; it is the whole content or ends with `\n` |
| `Pastebin.FirstLineNoNewline` | src/main.rs:44 | content without a terminator is read whole |
| `Pastebin.FirstLineAtNewline` | src/main.rs:44 | the line read ends exactly at the first terminator, which it includes |
| `Pastebin.Preview` | src/main.rs:45-51 | the snippet is a prefix of the line of at most 24 bytes; `ellipsis` holds if and only if the line has 24 bytes or more; a shorter line is its own snippet, a longer one is cut to exactly 24 bytes |
| `Pastebin.Summarize` | src/main.rs:37-52 | the entry carries the file name; its snippet is a prefix of the first line of at most 24 bytes; `ellipsis` holds if and only if the first line has 24 bytes or more; without `ellipsis` the snippet is the whole first line, with it exactly the first 24 bytes of the content |
| `Pastebin.UploadThenLookup` | src/main.rs:60-71 | after storing under an identifier, its path holds exactly the stored bytes and every other identifier's path is present and equal exactly as before |
| `Pastebin.PasteStore.Upload` | src/main.rs:60-65 | the identifier has 8 base-62 characters drawn in order; the store gains (or overwrites) `upload/<id>` with the body and nothing else changes; the reply is `http://localhost:8000/<id>\n` for that same identifier |
| `Pastebin.PasteStore.Retrieve` | src/main.rs:67-71 | returns the bytes of `upload/<id>` when that file exists and nothing otherwise |
| `Pastebin.UploadThenRetrieve` | src/main.rs:60-71 | uploading a body, taking the identifier out of the reply URL, validating it and retrieving it returns exactly that body |
| `Pastebin.PasteStore.Index` | src/main.rs:35-53 | one entry per enumerated file, in enumeration order, each the summary of that file's content; every stored paste appears |

## Left out

- Rocket routing, the attribute macros, `main`, and the `FromParam` plumbing beyond its accept/reject rule: framework glue.
- The template rendering and its `HashMap` context in `index`: presentation only.
- The real filesystem is replaced by the map `files`. That covers `read_dir`, `NamedFile::open`, `stream_to_file` and `BufReader::read_line`.
- I/O failures are not modelled, because they come from the operating system. The `unwrap` panics in `index` and the `?` on `stream_to_file` in `upload` are therefore absent, and uploads always succeed.
- `read_line` rejects content that is not UTF-8, and `index` then panics. The model reads bytes and keeps only the char-boundary condition of the 24-byte slice.
- The file name of a directory entry is taken as a string; `into_string` failing on a non-UTF-8 name is not modelled.
- The uniformity of the random draws and the collision probability in the comment on `PasteID::new` are statistical claims, so they cannot be stated here. Identifiers are not checked against existing files, as in the source; an upload whose identifier collides overwrites the earlier paste.
- Concurrency and atomicity of file writes are left to the operating system, and the source does not express them either.
- Editing, reserving and deleting pastes: the source has no such handlers.
- `Pastebin.PasteStore.Upload` returns the identifier only as a ghost out-parameter, so that its contract can name it; the source returns just the URL.
