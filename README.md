# SublimePhp import placement, in Dafny

This project models the import-placement routine of the SublimePhp editor
plugin (`sublime_php_library.py`). Given a PHP buffer and a fully-qualified
name, the routine does three things:

- It picks the existing line after which `use <fqdn>;` should go (`_find_namespace_region`).
- It inserts that statement there (`namespace_insert`).
- It decides whether the buffer is a PHP file at all (`is_php_file`).

Files:

- `wrappers.dfy`: `Option` and `Result`.
- `py_strings.dfy` (module `PyStrings`): Python's `str` ordering, which the
  routine uses to compare paths. It is proved to be a strict total order, and
  equivalent to the textbook "prefix, or first differing character" definition.
- `php_library.dfy` (module `SublimePhpLibrary`): the three operations.
  - `_find_namespace_region` is an imperative method with the source's loop,
    `continue` and `break`. It is proved equal to the function `FindRegion`,
    which maps the anchor chosen by the specification function `ChooseAnchor`
    to its region.
  - The buffer is a `View` class whose `Insert` changes its text in place.
  - `NamespaceInsert` is the method over that buffer.
- `import_placement.dfy` (module `ImportPlacement`): lemmas about the
  placement.
  - The order of the fallbacks.
  - The early exit of the scan.
  - Failure on a `use` line with no path.
  - Sorted placement among sorted `use` lines.
  - Where in the buffer the new line lands.
  - The concrete input behind the finding below.

The editor's regular-expression searches are inputs. `Matches` holds them:

- every `use (.*);` match, with the path the anchored pattern of line 28 extracts from its line, or None;
- the `namespace (.*);\n` match;
- the `<?php` match.

`WellFormedMatches` states the shape those patterns give the matches.

The model keeps what the code does, not what a more careful importer would do.

- The code has no class-body boundary, so a trait `use` inside a class is
  scanned like any other line (`TraitUseCanBeAnchor`).
- Aliases are not skipped. A line whose path cannot be extracted makes the
  routine fail (`UnparsableUseFails`).
- There is no duplicate check and no indentation or blank-line formatting.
- The comparison is Python's `namespace > path` on the raw strings.

## Model

| member | source | states |
|---|---|---|
| SublimePhpLibrary.IsPhpFile | sublime_php_library.py:6-7 | true exactly when the file name is some stem followed by `.php` |
| SublimePhpLibrary.IsPhpFileExamples | sublime_php_library.py:6-7 | `src/Foo.php` and `.php` are accepted; `Foo.phpt`, `php` and `Foo.PHP` (the test is case-sensitive) are refused |
| PyStrings.Less | sublime_php_library.py:30 | Python's `path < namespace`: it never holds between equal strings, and it always holds when the path is a proper prefix of the target |
| PyStrings.LessIffWitness | sublime_php_library.py:30 | the comparison holds exactly when the path is a proper prefix of the target, or the two agree up to a first position where the path's character is smaller |
| PyStrings.LessIrreflexive | sublime_php_library.py:30 | a path is never below itself, so an equal path stops the scan |
| PyStrings.LessTransitive | sublime_php_library.py:30 | the comparison is transitive |
| PyStrings.LessTotal | sublime_php_library.py:30 | any two distinct strings are ordered one way or the other |
| PyStrings.LessAsymmetric | sublime_php_library.py:30 | at most one of `a < b` and `b < a` holds, and `a < b` implies `a != b` |
| PyStrings.LessEqTransitive | sublime_php_library.py:30 | `<=` on strings is transitive |
| PyStrings.LessEqOfLess | sublime_php_library.py:30 | `a < b` implies `a <= b` |
| SublimePhpLibrary.RunLength | sublime_php_library.py:25-33 | the scan accepts a leading run of lines that all have a path below the target; the line where it stops (if any) is not below the target |
| SublimePhpLibrary.ChooseAnchor | sublime_php_library.py:21-44 | a use-anchor k has every line up to k below the target, and the next line (if any) parsed and at or after it; the namespace fallback happens only when no use line qualifies and a declaration exists; the tag fallback only when there is also no declaration; NoAnchor, carrying the RuntimeError's message, only when all three are missing; UnparsableUse(k) only for a pathless line k reached by the scan |
| SublimePhpLibrary.FindNamespaceRegion | sublime_php_library.py:21-44 | the loop with its `continue`/`break`, then the None-checked fallbacks and the raise, returns exactly the region (or error) of `FindRegion` |
| SublimePhpLibrary.FindRegion | sublime_php_library.py:21-44 | it fails exactly when `ChooseAnchor` fails, with the same error; on success the region (returned at line 44) is one of the `use` matches, the namespace match or the tag match |
| ImportPlacement.FallbackOrder | sublime_php_library.py:35-42 | with no use line, or a first path at or after the target, the result is the namespace declaration, else the `<?php` tag, else the NoAnchor error, in that order |
| ImportPlacement.UseAnchorExact | sublime_php_library.py:25-33 | conversely, a run of lines below the target, ended by the last line or by a parsed line at or after the target, makes its last line the anchor |
| ImportPlacement.UnparsableUseFails | sublime_php_library.py:28-30 | a line without an extractable path that the scan reaches makes the routine fail, whatever fallbacks exist |
| ImportPlacement.LaterLinesIgnored | sublime_php_library.py:26-33 | lines after the first one at or after the target are never examined: replacing them does not change the result |
| ImportPlacement.SortedPlacement | sublime_php_library.py:25-33 | for sorted, all-parsed use lines, the paths split at the stop index k: all before k are below the target and all from k on are at or after it; line k-1 is the anchor; inserting the target at k keeps the paths sorted |
| ImportPlacement.PlacementBetweenTwoImports | sublime_php_library.py:25-33 | in a buffer with a namespace declaration and the lines `use App\Alpha;` and `use App\Zeta;`, whose matches are well formed, the anchor for target `App\Mu` is the `use App\Alpha;` match |
| ImportPlacement.TraitUseCanBeAnchor | sublime_php_library.py:23 | in a buffer whose matches are well formed, a trait `use SomeTrait;` after `class Foo {` is scanned like a top-level import and is the anchor for target `Zend\Log` |
| SublimePhpLibrary.UseStatement | sublime_php_library.py:13 | the inserted text is `use `, the name, then `;` and a newline: the name's length plus 6 characters |
| SublimePhpLibrary.Splice | sublime_php_library.py:17 | inserting text at an offset keeps everything before it and everything after it, and adds exactly the text between them |
| SublimePhpLibrary.View.Insert | sublime_php_library.py:17 | the buffer's new text is the old text with the statement spliced in at the point |
| SublimePhpLibrary.SourceInsertionPoint | sublime_php_library.py:17 | the source's offset `region.end() + 1` lies past the anchor, and it starts a line exactly when a newline follows the anchor |
| SublimePhpLibrary.InsertionPoint | sublime_php_library.py:17 | the corrected insertion offset is the anchor's end or one past it. It is the source's `end + 1` except when the anchor's match ends with a newline and no blank line follows. After an anchor whose match ends with a newline, it is a line start inside the buffer |
| SublimePhpLibrary.NamespaceInsert | sublime_php_library.py:9-19 | an empty name leaves the buffer unchanged and succeeds even with no anchor; an anchor error leaves the buffer unchanged and is returned; otherwise the buffer becomes prefix + `use <name>;\n` + suffix at the corrected insertion point, and its length grows by the name's length plus 6 |
| ImportPlacement.InsertionBetweenUseLines | sublime_php_library.py:14-17 | after a use-anchor with a following use line, the new line lands after the anchor's match and no later than the next use line's start |
| ImportPlacement.InsertedLineIsWhole | sublime_php_library.py:13-17 | when the anchor's line ends right at the anchor, the statement becomes a line of its own. This covers the namespace match, a `use` match followed by a newline, and the tag followed by a newline. The statement starts a line, the next line starts right after it, and the text up to the anchor's end and after the insertion point is unchanged |
| ImportPlacement.NamespaceAnchorEndsLine | sublime_php_library.py:36 | the namespace anchor's match always ends its line, so the statement inserted after it is a whole line |
| ImportPlacement.UseAndTagAnchorsKeepSourceOffset | sublime_php_library.py:17 | after a `use` anchor or the tag anchor the corrected offset is the source's `end + 1`: the correction only moves the offset after the namespace declaration |
| ImportPlacement.SourceOffsetWhenNewlineFollows | sublime_php_library.py:17 | when the character after the anchor is a newline, the corrected offset is the source's `end + 1` |
| ImportPlacement.NamespaceAnchorSplitsNextLine | sublime_php_library.py:36 | when the namespace declaration is the anchor and no blank line follows it, the source's `end + 1` is not a line start, and the corrected offset is `end` |
| ImportPlacement.TrailingTextKeepsSourceOffset | sublime_php_library.py:17 | when more text follows the anchor on its line, the source's `end + 1` is not a line start, and the model keeps that offset. Examples are a `use` line with a comment after its `;`, and `<?php` followed by code |
| ImportPlacement.UseLineWithComment | sublime_php_library.py:13-17 | on `<?php\nuse A\B; // x\n` with target `Z`, the anchor is the `use` match and the statement goes at offset 15, giving `<?php\nuse A\B; use Z;\n// x\n` |
| ImportPlacement.TagBeforeDocComment | sublime_php_library.py:17 | on `<?php /**\n * d\n */\nfoo();\n` with only the tag, the statement goes at offset 6, before the doc comment, giving `<?php use Z;\n/**...` |
| ImportPlacement.AsWrittenSplitsClassLine | sublime_php_library.py:13-17 | on `<?php\nnamespace App;\nclass Foo {}\n`, the source's offset inserts `use App\Bar;` after the `c` of `class`; the corrected offset puts it on its own line before `class` |

## Left out

- The Sublime Text view API and the regex engine are not modelled. This covers `find_all`, `find`, `line` and `substr`. The matches are inputs, with their shape stated by `WellFormedMatches`. The `[A-z]` class of line 28, which also admits `[`, `]`, `^`, `_` and the backquote, and its two-character minimum are the engine's concern: they decide only whether `path` is Some.
- `view.file_name()` returning None for an unsaved buffer is not modelled. In Python the `.endswith` call then raises. `IsPhpFile` takes the name as a string.
- The two Python exceptions (AttributeError when line 28 does not match, TypeError when it matches without its group) are one error, `UnparsableUse`. It records the index of the line.
- `view.full_line(region)` at line 16 is not modelled. Its result is unused.
- The `edit` token and undo grouping are editor machinery and are not modelled.
- Insertion past the end of the buffer is not modelled. `NamespaceInsert` requires that the chosen anchor and the offset after it lie in the buffer (`AnchorInsertable`). After the namespace declaration the corrected offset always does. After a `use` match or the tag, at least one character must follow the anchor, as the source's `end + 1` needs. Only a `use` match or the tag that ends the file is excluded, such as `<?php` alone with no newline. `<?php echo 1;` with no final newline is accepted.
- SublimePhpLibrary.NamespaceInsert: inserts at the corrected offset. That offset differs from the source's `end + 1` only after a namespace declaration with no blank line after it (the finding below). After a `use` match or the tag it is the source's offset (`UseAndTagAnchorsKeepSourceOffset`). That includes a `use` line with text after its `;` and `<?php` followed by more text on its line: the statement then goes within that line, as in the source (`TrailingTextKeepsSourceOffset`, `UseLineWithComment`, `TagBeforeDocComment`).
- sublime_php_namespace.py is not part of this model. It is editor command glue: selections, the quick panel, command dispatch, settings and the cache directory.
- The duplicate check at its lines 70-73 belongs to a class whose source is not available.
- `IndexManager`, `FqdnIndex`, `FilesRepository`, `FilesystemFqdnRepository`, `ViewFqdnRepository`, `ViewRegionRepository` and `InsertNamespaceCommand` are not part of this model. Their bodies are not available.
- Symbol extraction, index building, persistence and file-tree walking are not part of this model, for the same reason.

## Findings

| source | as written | input that shows it | evidently intended | confidence | as-written member | corrected member |
|---|---|---|---|---|---|---|
| sublime_php_library.py:36 | the namespace pattern `namespace (.*);\n` ends its match after the newline. Line 17 still inserts at `end() + 1`, one character into the following line | `<?php\nnamespace App;\nclass Foo {}\n`, no `use` lines, name `App\Bar`. The buffer becomes `...namespace App;\ncuse App\Bar;\nlass Foo {}\n` | the new `use` statement starts the line after the declaration, as it starts the line after a blank line that follows the declaration | high, not executed | SublimePhpLibrary.SourceInsertionPoint, ImportPlacement.NamespaceAnchorSplitsNextLine, ImportPlacement.AsWrittenSplitsClassLine | SublimePhpLibrary.InsertionPoint |
