# libstr string tokenizer, modelled in Dafny

libstr's tokenizer is a cursor that walks over one byte buffer. It is
`struct StringTokenizer`, with the fields `string`, `length`, `position` and
`incremental_factor`. In read mode it wraps the caller's NUL-terminated string
without copying it, and offers these operations:

- skipping whitespace;
- taking the bytes between two delimiters;
- taking a fixed-length slice;
- taking a run of numeric bytes;
- testing for a literal such as `true`.

In write mode it overwrites the buffer at the cursor. It grows the buffer with
`realloc` by a step that never shrinks. Beside it, `is_numeric` classifies the
bytes of a number, and `itos` writes an `int` as decimal text
with `snprintf("%d")`.

The model has five modules:

- **`CRuntime`** (`c_runtime.dfy`) holds what the code takes from C:
  - bytes, and the signed value of a plain `char` on x86-64;
  - `size_t` arithmetic modulo 2^64, and the largest object size;
  - `strlen`, `strncmp` against a NUL-free needle, `snprintf` truncation, and
    `realloc`.
- **`StrUtils`** (`strutils.dfy`) holds `is_numeric`.
- **`NumericString`** (`numeric_string.dfy`) holds `itos` and the `%d`
  conversion of section 7.21.6.1 of ISO/IEC 9899:2011. It also proves the
  round trip through a signed-decimal reader, in both directions.
- **`StringTokenizer`** (`string_tokenizer.dfy`) holds `class Tokenizer`, whose
  fields are those of the struct. It is explained further below.
- **`Scenarios`** (`scenarios.dfy`) drives the class on small example inputs.
  Because the class contracts are precise, the exact outcome of each example
  follows from them.

In `StringTokenizer`, each C function is a method. The buffer is an
`array<Byte>`, and each method changes only the fields that the C function
assigns. Each scanning loop is proved against a specification function over the
buffer contents:

- `SkipBlanks` for `st_next_token`;
- `DelimEnd` for `st_sub_string`;
- `NumericRun` for `st_extract_numbers`.

For the write operations:

- `ExpandString` is specified in terms of `HasRoom`, `ExpandOk`, `GrownLength`
  and `GrownInc`.
- `AppendString` is specified by `AppendEffect`, a relation between a `Snapshot`
  of the fields and bytes before the call and one after it. A `Layout` records
  the fields, the buffer size, how many leading bytes of the starting buffer
  survived every `realloc`, and whether the buffer moved. `AfterAppend` gives
  the layout after a successful append (`AfterAppendGrows` states that it
  never gains surviving bytes and, without wrap-around, never shrinks), and `AppendEffect` pins the new state
  to it: fields, buffer size, the bytes written, and every surviving byte
  outside them. The method also states that the buffer is the same array
  exactly when no growth happened, and a fresh one otherwise.
- `AppendQuotedString` is specified by `QuotedEffect`, which chains three
  layouts (`QuotedLayout`) and gives the final fields, buffer size and bytes.
  It is derived from three `AppendEffect` steps by the lemmas
  `QuotedFirstFails`, `QuotedSecondFails`, `QuotedThirdFails` and
  `QuotedSucceeds`.

Conventions:

- A NULL pointer result is `None`.
- An `int` status is 0 or 1.
- Each `malloc` or `realloc` outcome that the code checks is a `bool`
  parameter, where `true` means the allocation succeeds.
- `realloc` leaves the new bytes of a grown buffer unconstrained. C leaves them
  uninitialised, and the terminator of a grown buffer is lost. A growth can
  also shrink the buffer. With a zero request and a zero step, the cursor at
  `length` fails the room test, and `realloc` then asks for exactly `length`
  bytes. A read-mode tokenizer then loses the caller's NUL
  (`Scenarios.ShrinkingAppend`).

The code of `st_slice_string` copies and consumes `len + 1` bytes, not `len`.
So `st_starts_with` moves the cursor `strlen(needle) + 1` bytes on success; for
example, it moves 5 bytes for `"true"` in `"truefalse"`. The model follows the
code in this, and `Scenarios.StartsWithTrue` shows it. The header comment of
`st_starts_with` (include/strutils.h:149-160) does not say how far the cursor
moves.

## Model

| member | source | states |
|---|---|---|
| CRuntime.SignedChar | src/string_tokenizer.c:66 | A plain `char` is signed: its value lies in -128..127, is negative exactly for the bytes from 0x80 on, and equals the byte modulo 256 |
| CRuntime.AsSize | src/string_tokenizer.c:117 | An `int` converted to `size_t` keeps its value when it is in range; a negative value, such as the slice length -1, becomes value + 2^64 |
| CRuntime.SizeArithIsModular | src/string_tokenizer.c:234-240 | `size_t` addition and subtraction (`SizeAdd`, `SizeSub`) are the mathematical sum and difference converted to `size_t`, that is, reduced modulo 2^64 |
| CRuntime.StrLen | src/string_tokenizer.c:12 | `strlen` is the index of the first NUL: that byte is NUL and none before it is |
| CRuntime.StrnEqual | src/string_tokenizer.c:202 | `strncmp(a, b, n) == 0` holds exactly when a and b agree at every index below n up to and including the first NUL of a |
| CRuntime.StrnEqualWithoutNul | src/string_tokenizer.c:202 | For a NUL-free needle of length n, `strncmp(a, needle, n) == 0` holds exactly when the first n bytes of `a` equal the needle |
| CRuntime.Snprintf | src/numeric_string.c:20 | `snprintf` leaves a prefix of the formatted text: all of it when the size exceeds its length, and size - 1 bytes when 0 < size <= the text's length |
| CRuntime.Realloc | src/string_tokenizer.c:242 | `realloc` succeeds exactly when memory is available and the size is in 1..MAX_OBJECT; it then gives a fresh block of that size whose first min(old, new) bytes are the old ones |
| StrUtils.IsNumeric | include/strutils.h:234-248 | `is_numeric` returns only 0 or 1, and returns 1 exactly for `-`, `+`, `0`..`9`, `.`, `e` and `E`; every other byte, NUL and the blanks included, gives 0 |
| NumericString.Digits | src/numeric_string.c:20 | The digits `%d` writes for a magnitude: at least one decimal digit, with a leading `0` exactly for the value 0, and then `"0"` alone |
| NumericString.FormatD | src/numeric_string.c:14-20 | The `%d` text has at least one byte; it starts with `-` exactly for negative values, and every other byte is a decimal digit |
| NumericString.Itos | src/numeric_string.c:12-22 | `itos` is NULL exactly when the `malloc` fails; otherwise it is the complete `%d` text of the value, at most 11 bytes long, because the measured buffer leaves room for all of it |
| NumericString.FormatDCanonical | src/numeric_string.c:14 | The `%d` text starts with `-` exactly for negative values, has at least one digit, no leading zero unless it is `"0"`, and is never `"-0"` |
| NumericString.FormatDLength | src/numeric_string.c:14-15 | Every 32-bit `int` prints in at most 11 bytes, so the size `snprintf` measures is at most 12 |
| NumericString.ItosRoundTrip | src/numeric_string.c:20 | Reading the `%d` text back as a signed decimal gives the value printed, for every integer and so for every 32-bit `int`, INT_MIN included |
| NumericString.ParseFormatRoundTrip | src/numeric_string.c:20 | Conversely, every canonical signed decimal reads as a value whose `%d` text is that same string |
| NumericString.DigitsRoundTrip | src/numeric_string.c:20 | Reading the digits of n back gives n |
| NumericString.DigitsOfValue | src/numeric_string.c:20 | Writing the value of a digit string without a leading zero gives the string back |
| NumericString.LeadingDigitPositive | src/numeric_string.c:20 | A k-digit string without a leading zero has a value of at least 10^(k-1) |
| NumericString.DigitsLength | src/numeric_string.c:14 | A number below 10^k has at most k digits |
| NumericString.ItosExamples | tests/numeric_string_unit_tests.c:13-14 | `itos` gives "0", "-123" and "456" for 0, -123 and 456, and "30" and "6582" for the values of tests/itos_unit_tests.c |
| NumericString.ItosLimits | tests/numeric_string_unit_tests.c:13-14 | `itos` gives "2147483647" and "-2147483648" at both ends of the `int` range |
| StringTokenizer.IsBlank | src/string_tokenizer.c:66 | The blank test `token <= ' '` on a signed `char` holds exactly for the bytes up to 32 and for every byte from 0x80 on |
| StringTokenizer.SkipBlanks | src/string_tokenizer.c:62-67 | The scan of `st_next_token` from p stops at or after p, after at most length + 1; every byte it passes is blank, and it stops past `length` or on a byte that is not blank |
| StringTokenizer.DelimEnd | src/string_tokenizer.c:92-95 | The scan of `st_sub_string` stops within the text, at the first byte that is NUL or the end delimiter; no byte before it is either |
| StringTokenizer.NumericRun | src/string_tokenizer.c:144-147 | The numeric run at p lies within the text, consists of `is_numeric` bytes only, and is maximal: the byte after it is NUL or not numeric |
| StringTokenizer.MatchesAt | src/string_tokenizer.c:195-202 | The needle matches at p exactly when its bytes fit within the text from p on and each byte at p + k is the needle's byte k |
| StringTokenizer.ExpandFacts | src/string_tokenizer.c:234-250 | Without wrap-around the room test is `position + size < length`; room implies success, and without a working `realloc` only room gives success; a success never shrinks `length` or `inc`, lifts `inc` to at least the request when it grows, and leaves `position + size <= length` |
| StringTokenizer.ExactFitNeedsRealloc | src/string_tokenizer.c:234-246 | The room test is strict: for every cursor, length, step and request with `position + size == length`, the request fails the room test and fails when `realloc` fails |
| StringTokenizer.AfterAppendGrows | src/string_tokenizer.c:233-250 | A successful append never gains surviving bytes and, once the series has moved to a new buffer, stays moved. Without wrap-around, `length` and `inc` never shrink, the cursor ends the request's length further and within the text, and a growth makes the step at least the request and the buffer `length` bytes |
| StringTokenizer.QuotedProgress | src/string_tokenizer.c:280-291 | The number of bytes `st_append_quoted_string` writes is 0, 1, k + 1 or k + 2: it stops after the first append whose expansion fails |
| StringTokenizer.QuotedPrefixes | src/string_tokenizer.c:280-291 | The prefixes of `"s"` that the three appends leave are the empty text, `"`, `"` followed by s, and all of `"s"` |
| StringTokenizer.AppendStep | src/string_tokenizer.c:268-272 | Two appends at adjacent ranges write the concatenation of their texts and leave every other surviving byte unchanged, up to any bound that both steps keep |
| StringTokenizer.AppendHalves | src/string_tokenizer.c:258-275 | An expansion followed by the copy of s at the cursor has exactly the effect `AppendEffect` describes for a result of 1 |
| StringTokenizer.SeriesStep | src/string_tokenizer.c:280-291 | One append inside a series leaves the state shaped like the series' next layout. That layout keeps no more bytes than the series so far or the single append, the single append keeps every byte before the cursor, and the layout has moved exactly when the series had or the single append grew the buffer |
| StringTokenizer.QuotedFirstFails | src/string_tokenizer.c:281-283 | When the opening quote cannot be appended, nothing is written, nothing changes and the result is 0 |
| StringTokenizer.QuotedSecondFails | src/string_tokenizer.c:284-286 | When the string cannot be appended, the opening quote stays written, with no roll-back, and the result is 0 |
| StringTokenizer.QuotedThirdFails | src/string_tokenizer.c:287-289 | When the closing quote cannot be appended, `"` followed by s stays written, with no roll-back, and the result is 0 |
| StringTokenizer.QuotedSucceeds | src/string_tokenizer.c:280-291 | When all three appends succeed, `"s"` is written at the old cursor, the cursor moves by \|s\| + 2, and the result is 1 |
| StringTokenizer.ExpandGuardWraps | src/string_tokenizer.c:234 | The room test's `size_t` sum wraps: a request of SIZE_MAX bytes at cursor 1 passes the test on a text of length 1 |
| StringTokenizer.Tokenizer.Init | src/string_tokenizer.c:20-23 | The struct fields are set to the string, its length, position 0 and growth step 0 |
| StringTokenizer.Tokenizer.Create | src/string_tokenizer.c:8-26 | NULL exactly for a NULL string, an empty string or a failed `malloc`; otherwise a tokenizer that holds the caller's own array, with `length` its `strlen`, `position` 0 and `incremental_factor` 0 |
| StringTokenizer.Tokenizer.CreateEmpty | src/string_tokenizer.c:31-49 | NULL exactly when either `malloc` fails, the size is too large or the size is 0; otherwise a fresh buffer of n spaces, `length` n, `position` 0 and `incremental_factor` n |
| StringTokenizer.Tokenizer.NextToken | src/string_tokenizer.c:62-67 | The cursor steps once and then skips blanks: it ends where `SkipBlanks` from the stepped position stops, which is `length + 1` when only blanks remain |
| StringTokenizer.Tokenizer.CurrentToken | src/string_tokenizer.c:72-74 | The result is the byte under the cursor, and nothing changes |
| StringTokenizer.Tokenizer.SubString | src/string_tokenizer.c:79-110 | NULL, with the cursor unchanged, exactly when the byte under the cursor is not the start delimiter; otherwise the bytes strictly between the two delimiters, with the cursor left on the stopping byte (`DelimEnd`) |
| StringTokenizer.Tokenizer.SliceString | src/string_tokenizer.c:115-134 | NULL, with the cursor unchanged, exactly when `len` as a `size_t` exceeds `length - position`; otherwise the len + 1 bytes from the cursor on, with the cursor advanced by len + 1 |
| StringTokenizer.Tokenizer.CopyRange | src/string_tokenizer.c:159-163 | The copy loop of `st_extract_numbers` gives exactly the bytes from `start` through `end`, both included |
| StringTokenizer.Tokenizer.ExtractNumbers | src/string_tokenizer.c:139-168 | The cursor always ends at start + run - 1 in `size_t` arithmetic; the result is NULL exactly when the run is empty, and otherwise the run together with the byte that follows it |
| StringTokenizer.Tokenizer.ExtractDouble | src/string_tokenizer.c:173-187 | The same cursor effect and NULL condition as `st_extract_numbers`; otherwise the value `strtod` gives for the extracted text |
| StringTokenizer.Tokenizer.StartsWith | src/string_tokenizer.c:189-211 | The result is 1 exactly when the \|needle\| bytes at the cursor lie within the text and spell the needle; on 0 the cursor is restored, and on 1 it has moved \|needle\| + 1 |
| StringTokenizer.Tokenizer.ExtractBoolean | src/string_tokenizer.c:216-227 | NULL, with the cursor restored, exactly when the literal is not at the cursor; otherwise `int_value`, with the cursor past the literal and one more byte |
| StringTokenizer.Tokenizer.ExpandString | src/string_tokenizer.c:232-253 | The result is 1 exactly when the room test passes or the `realloc` succeeds. Nothing changes on 0 or when there is room. Otherwise the buffer is a fresh array of `length + max(size, inc)` bytes with its first min(old size, new length) bytes kept, and `inc` becomes that step, so it never decreases. After a 1, `position + size <= length` holds when the cursor is within the text and neither `size_t` sum wraps |
| StringTokenizer.Tokenizer.CopyAtCursor | src/string_tokenizer.c:266-272 | The copy loop of `st_append_string` writes s over the bytes at the cursor, moves the cursor past them and changes no other byte |
| StringTokenizer.Tokenizer.AppendString | src/string_tokenizer.c:258-275 | Result 1 exactly when the expansion succeeds; then s is written at the cursor, the cursor moves by \|s\|, and `length`, `inc` and the buffer size are those of `AfterAppend`. Result 0 leaves the state unchanged. Every byte of the old buffer that survives outside the written range keeps its value, the NUL at `length` included when there was room. The buffer is the same array exactly when the result is 0 or there was room, and otherwise a fresh one |
| StringTokenizer.Tokenizer.AppendQuotedString | src/string_tokenizer.c:280-291 | The bytes written are the `QuotedProgress` prefix of `"s"`. The result is 1 exactly when all of it was written. The final `length`, `inc`, cursor and buffer size are those of the chained `QuotedLayout`. Earlier writes are not rolled back, and every surviving byte outside the written range is unchanged. The buffer is the same array exactly when none of the three appends grew it, and otherwise a fresh one |
| StringTokenizer.Tokenizer.AppendDouble | src/string_tokenizer.c:296-306 | 0 with nothing changed when `gcvt` fails; otherwise exactly the effect of appending its text, with the same buffer identity as `st_append_string` |

## Left out

- `st_destroy` (src/string_tokenizer.c:54-57) only frees memory, and the model has no deallocation.
- `ldtos` and `stold` (src/numeric_string.c:27-53) are left out. They are `long double` formatting and parsing, and `stold` also reports errors through `errno`.
- src/itos.c is a second definition of `itos`, and it is not part of this model. The model follows src/numeric_string.c.
- The values that `strtod` and `gcvt` compute are floating point. They are parameters: `ExtractDouble` takes a `strtod` function, and `AppendDouble` takes a `gcvt` that returns at most 31 bytes or fails.
- The unchecked `malloc` calls in `st_sub_string`, `st_slice_string`, `st_extract_numbers`, `st_extract_double` and `st_extract_boolean` are modelled as succeeding.
- Returned strings are values, so the NUL terminator is not modelled. `st_slice_string` and `st_extract_numbers` copy `len + 1` bytes into a block of `len + 1` bytes and then write the terminator one byte past the allocation.
- The loop indices of `st_sub_string` and `st_extract_numbers` are `int` copies of `size_t` positions. They are modelled as exact, which assumes a text shorter than 2^31 bytes.
- Reads outside the buffer are excluded by preconditions instead of being modelled:
  - reads need the byte at `length` to exist, and the scans need it to be NUL;
  - the cursor must not be past `length`;
  - `st_sub_string` at the terminator needs a start delimiter other than NUL.
- StringTokenizer.Tokenizer.NextToken: the C loop reads the byte before testing the bound, and so reads `string[length + 1]` at the end of the text. The model tests the bound first. The outcome is the same, but that one read is not modelled.
- The byte at index `size` of `st_create_empty`'s buffer is never written by the C code, yet `st_create` measures the buffer with `strlen`. The model puts a NUL there. That is the only case in which `length` is `size`.
- `realloc` returns a new array in the model, so a caller's own pointer to the old buffer is not modelled as dangling.
- `realloc(p, 0)` is modelled as a failure. C leaves this case implementation-defined.
- The append operations need the cursor within the text, because the C code writes wherever the cursor is.
- StringTokenizer.Tokenizer.ExpandString: `position + size <= length` after success is stated only when neither `size_t` sum wraps. `ExpandGuardWraps` shows a request that wraps and passes the room test without any growth.
- StringTokenizer.Tokenizer.StartsWith: the needle length is required to be at most INT_MAX. The code passes the `size_t` length of the needle as an `int`, and that conversion is implementation-defined for longer needles.
- StringTokenizer.Tokenizer.ExtractBoolean: the same INT_MAX bound on the literal, because it calls `st_starts_with`.
- StringTokenizer.Tokenizer.CreateEmpty: the size is required to be below SIZE_MAX. At SIZE_MAX the code's `malloc(size + 1)` wraps to `malloc(0)`, and that case is not modelled.
- The room test of `st_expand_string` is strict. When `position + size == length`, the bytes already fit, yet the code calls `realloc`, and it returns 0 when that fails. The header comment at include/strutils.h:172-173 says 1 means the buffer has enough space. The model follows the code; `ExactFitNeedsRealloc` proves it for every exact fit.
- Plain `char` is taken to be signed, as on x86-64. The other comparisons give the same results when `char` is unsigned; only the blank test of `st_next_token` does not.
