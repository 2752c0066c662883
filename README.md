# tomload in Dafny

This project models tomload, a C++14 reader for TOML documents, in Dafny. It also models the Python scripts that turn TOML fixtures into doctest assertions for it. Every operation is stated as a function, a method or a class on Dafny values, and the properties the code promises are proved about that model. The generated assertions are proved to read back, on the C++ side, as claims that hold of the tree they were printed from.

The model has four layers. The file names below follow the repository.

- **Views.**
  - `string_view14.dfy` (`StringView14`) models the C++17 `std::string_view` replacement. That covers `substr`, `compare` and the comparison operators, `find`, `rfind`, and `find_first_of`/`find_last_of`/`find_first_not_of`/`find_last_not_of`, with search semantics as in [string.view.find] of ISO/IEC 14882:2017.
  - A `class StringView` holds `mem`/`data`/`size` for `remove_prefix`, `remove_suffix`, `swap` and `copy`. The search loops are `while` methods proved equal to recursive reference functions, and lemmas give their outright meaning: the least or greatest matching index.
  - `view_t.dfy` (`ViewT`, `ViewTInline`) models `starts_with`, `ends_with`, `contains` and their list overloads, as in tomload/view_t.cpp, tomload/view_t.hpp and the root view_t.hpp.
- **Lexing.** Each lexer takes a view and returns the value and the remaining suffix. Errors are `Result` values carrying `parse_error`, `type_error` or `out_of_range`.
  - `utf8.dfy` and `unicode_escape.dfy`: UTF-8 encoding of code points (section 3 of RFC 3629) and `\u`/`\U` escapes.
  - `detail_string.dfy`: the literal, multi-line literal, basic and multi-line basic strings (the "String" section of TOML v1.0.0), where the string loops are methods proved against decoding functions; and bare keys.
  - `detail_number.dfy`: radix and decimal integers with their underscore rules (the "Integer" section).
  - `parser.dfy`: `skip_space`, `wait_newline`, `parse_array`, `parse_item` and `parse_keys` of tomload/parser.cpp.
- **Values and documents.**
  - `errors.dfy` and `items.dfy`: the `item_t` tagged union, its typed accessors and `get<PARAM>`.
  - `tree.dfy`: `push`, `merge`, `insert_empty_table` and `insert_new_table`, with the leaf landing at its path and nothing else changing.
  - `document.dfy`: the `parse_main` line loop of tomload/tomload.cpp, with a round trip from a list of header and pair lines to the text and back.
- **Earlier versions.** These reuse the same datatypes and prove where behaviour agrees with or differs from tomload/:
  - `tomload_hpp.dfy`: the single-header tomload.hpp, including its `parse` state machine;
  - `legacy_detail_string.dfy`: the root detail_string.cpp;
  - `legacy_parser.dfy`: the root parser.cpp;
  - `toml_r.dfy`: the prototype toml_r.hpp.
- **Doctest generators.**
  - `py_tree.dfy`: the tree `tomllib.load` returns.
  - `doctest_gen.dfy`: the encoders `c_str`, `c_bool`, `c_float`, `chain_keys`, `check_*` and the pre-order walk, for the three scripts:
    - unittest/toml-test/tests2doctest.py,
    - unittest/samples/toml2doctest.py,
    - toml2doctest.py.
  - `cpp_reading.dfy`: how the C++ side reads the emitted text, namely string expressions, decimal literals, float expressions, accessor chains and a whole `CHECK` line. This is the reference the encoders are proved against.
  - `doctest_literals.dfy`: the encoders read back as their inputs.
  - `doctest_walk.dfy`: every printed CHECK holds of the tree, each known node gets exactly two lines, and every node gets its type line.
  - `doctest_main.dfy`: `print_check`, `print_load` and `main` of the three scripts. This covers path splitting, sorting by path, the `invalid` rule and the skipped fixtures.

Some tests in unittest/ check an older version of the code than the one they sit beside, and the model follows each source file as written:
- `unittest/test_functions.cpp:389-392` expects `\u0000` to be refused. Only the root detail_string.cpp does that; tomload/detail_string.cpp decodes it to NUL (`UnicodeEscape.NulEscape`).
- `unittest/test_functions.cpp:520-524` expects `[aa]  #comm` to give an empty root table. tomload.hpp does that (`TomloadHpp.CommentHeaderLegacy`). tomload/tomload.cpp makes the empty table `aa` under the root (`Document.CommentAfterHeader`).
- Where tomload/tomload.cpp uses names that tomload/tomload.h does not declare (`u.b`, `type_error`, a `push` returning `item_t*`), the model follows tomload/tomload.cpp.

## Model

| member | source | states |
|---|---|---|
| StringView14.RankInjective | tomload/string_view14.hpp:448-464 | the character order `compare` uses tells every two distinct characters apart |
| StringView14.Cmp | tomload/string_view14.hpp:448-464 | `compare(sv)` returns only -1, 0 or 1 |
| StringView14.CmpZero | tomload/string_view14.hpp:448-464 | `compare` returns 0 exactly when the two views hold the same characters |
| StringView14.CmpAntisymmetric | tomload/string_view14.hpp:448-464 | swapping the operands of `compare` negates the result |
| StringView14.CmpIsLexicographic | tomload/string_view14.hpp:448-464 | `compare` returns -1 exactly when the first view sorts first in lexicographic order (first differing character, then a proper prefix first) |
| StringView14.ProperPrefixIsSmaller | tomload/string_view14.hpp:459-460 | a proper prefix compares smaller than the longer view |
| StringView14.CmpTransitive | tomload/string_view14.hpp:448-464 | the order `compare` defines is transitive |
| StringView14.Compare | tomload/string_view14.hpp:448-464 | the loop over the common length, then the length test, returns the lexicographic comparison |
| StringView14.Eq | tomload/string_view14.hpp:727-729 | `==` holds exactly when the views are equal |
| StringView14.Ne | tomload/string_view14.hpp:732-734 | `!=` holds exactly when the views differ |
| StringView14.Lt | tomload/string_view14.hpp:737-739 | `<` is the strict lexicographic order |
| StringView14.Le | tomload/string_view14.hpp:742-744 | `<=` is the strict lexicographic order or equality |
| StringView14.Gt | tomload/string_view14.hpp:747-749 | `>` is the strict lexicographic order with the operands swapped |
| StringView14.Ge | tomload/string_view14.hpp:752-754 | `>=` is the swapped strict order or equality |
| StringView14.Substr | tomload/string_view14.hpp:439-445 | `substr(pos, n)` throws out_of_range "string_view14::substr()" exactly when pos > size; otherwise it returns the min(size - pos, n) characters starting at pos |
| StringView14.SubstrSplits | tomload/string_view14.hpp:439-445 | `substr(0, pos)` followed by `substr(pos)` gives the whole view back |
| StringView14.CompareAt | tomload/string_view14.hpp:467-469 | `compare(pos1, n1, sv)` throws exactly when pos1 > size, and otherwise returns 0 exactly when sv equals `substr(pos1, n1)` |
| StringView14.At | tomload/string_view14.hpp:366-371 | `at(pos)` returns the character at pos when pos < size and throws out_of_range "string_view14::at()" otherwise |
| StringView14.FirstOccurrenceIsLeast | tomload/string_view14.hpp:542-547 | the forward scan finds the least start index from `from` where sv occurs, or npos when there is none |
| StringView14.FindIsLeastOccurrence | tomload/string_view14.hpp:537-549 | `find(sv, pos)` is npos when pos > size; otherwise the least i >= pos where sv occurs, pos itself for an empty sv, or npos when sv occurs nowhere from pos |
| StringView14.Find | tomload/string_view14.hpp:537-549 | the for-loop with early return computes the `find` result above |
| StringView14.LastOccurrenceIsGreatest | tomload/string_view14.hpp:570-575 | the backward scan finds the greatest start index up to the target where sv occurs, or npos |
| StringView14.RFindIsGreatestOccurrence | tomload/string_view14.hpp:567-577 | `rfind(sv, pos)` is the greatest i <= min(size, pos) where sv occurs, or npos when there is none |
| StringView14.RFind | tomload/string_view14.hpp:567-577 | the descending for-loop computes the `rfind` result above |
| StringView14.FindCharIsMembership | tomload/string_view14.hpp:552-554 | `sv.find(c)`, the test the `find_*_of` members make of each character, is other than npos exactly when c is a character of sv |
| StringView14.FirstWhereIsLeast | tomload/string_view14.hpp:596-601 | the forward character scan returns the least index from `from` whose membership in the set is the wanted one, or npos |
| StringView14.LastWhereIsGreatest | tomload/string_view14.hpp:622-627 | the backward character scan returns the greatest index below the target whose membership is the wanted one, or npos |
| StringView14.LastTarget | tomload/string_view14.hpp:621 | `min(size_, max(pos, pos + 1))` in 64-bit `size_t` is the whole view for pos = npos (pos + 1 wraps to 0) and min(size, pos + 1) otherwise |
| StringView14.FindFirstOfIsLeast | tomload/string_view14.hpp:595-602 | `find_first_of(sv, pos)` is the least i >= pos whose character is in sv, or npos when there is none |
| StringView14.FindFirstNotOfIsLeast | tomload/string_view14.hpp:646-653 | `find_first_not_of(sv, pos)` is the least i >= pos whose character is not in sv, or npos |
| StringView14.FindLastOfIsGreatest | tomload/string_view14.hpp:620-628 | `find_last_of(sv, pos)` is the greatest i <= pos (any i for npos) whose character is in sv, or npos |
| StringView14.FindLastNotOfIsGreatest | tomload/string_view14.hpp:671-679 | `find_last_not_of(sv, pos)` is the greatest i <= pos (any i for npos) whose character is not in sv, or npos |
| StringView14.FindFirstOf | tomload/string_view14.hpp:595-602 | the for-loop computes the `find_first_of` result above |
| StringView14.FindFirstNotOf | tomload/string_view14.hpp:646-653 | the for-loop computes the `find_first_not_of` result above |
| StringView14.FindLastOf | tomload/string_view14.hpp:620-628 | the descending for-loop from the wrapped target computes the `find_last_of` result above |
| StringView14.FindLastNotOf | tomload/string_view14.hpp:671-679 | the descending for-loop from the wrapped target computes the `find_last_not_of` result above |
| StringView14.StringView.Chars | tomload/string_view14.hpp:315-318 | a view shows exactly `size_` characters of its buffer from `data_` |
| StringView14.StringView.constructor | tomload/string_view14.hpp:315-318 | `string_view14(str, len)` shows the len characters of the buffer from the given offset |
| StringView14.StringView.RemovePrefix | tomload/string_view14.hpp:409-412 | `remove_prefix(n)` advances `data_` by n and shrinks `size_` by n, so the view loses its first n characters and the buffer is untouched |
| StringView14.StringView.RemoveSuffix | tomload/string_view14.hpp:415-417 | `remove_suffix(n)` shrinks `size_` only, so the view loses its last n characters |
| StringView14.StringView.Swap | tomload/string_view14.hpp:420-423 | `swap` exchanges `data_` and `size_` (and the buffer) of the two views, so each shows what the other showed |
| StringView14.StringView.Copy | tomload/string_view14.hpp:426-436 | `copy(s, n, pos)` writes the min(size - pos, n) characters from pos to the front of s and returns that count when pos < size; otherwise it writes nothing and returns 0; the rest of s is unchanged |
| ViewT.StartsWith | tomload/view_t.cpp:14-16 | `starts_with(view, x)` holds exactly when x is a prefix of view; the inline tomload/view_t.hpp:21-23 and the legacy view_t.hpp:19-21 have the same body and are this member too |
| ViewT.EndsWith | tomload/view_t.cpp:22-24 | `ends_with(view, x)` holds exactly when size(view) >= size(x) and x is a suffix of view, so it is false when x is longer; the inline tomload/view_t.hpp:25-27 and the legacy view_t.hpp:23-25 have the same body and are this member too |
| ViewT.Contains | tomload/view_t.cpp:30-32 | `contains(view, x)` holds exactly when x occurs at some index of view |
| ViewT.EmptyIsPrefixAndSuffix | view_t.hpp:19-25 | both `starts_with` and `ends_with` hold for an empty x |
| ViewT.OneCharPrefix | tomload/string_view14.hpp:497-499 | a one-character prefix test is a test of the first character |
| ViewT.LongerNeverEnds | view_t.hpp:23-25 | `ends_with` is false whenever x is longer than the view |
| ViewT.StartsWithAny | tomload/view_t.cpp:38-42 | the initializer-list `starts_with` holds exactly when some listed string is a prefix, and is false for an empty list |
| ViewT.EndsWithAny | tomload/view_t.cpp:48-52 | the initializer-list `ends_with` holds exactly when some listed string is a suffix, and is false for an empty list |
| ViewT.ContainsAny | tomload/view_t.cpp:58-62 | the initializer-list `contains` holds exactly when some listed string occurs in the view, and is false for an empty list |
| ViewTInline.StartsWithList | tomload/view_t.hpp:29-36 | the loop returns true exactly when some listed string is a prefix, false for an empty list |
| ViewTInline.EndsWithList | tomload/view_t.hpp:38-45 | the loop returns true exactly when some listed string is a suffix, false for an empty list |
| Utf8.Bytes | tomload/detail_string.cpp:27-43 | every code point up to U+10FFFF is written as one to four bytes, each below 256 |
| Utf8.Encode | tomload/detail_string.cpp:26-47 | `utf8_encode` succeeds exactly on the Unicode scalar values and throws parse_error for a surrogate (U+D800..U+DFFF) and for anything above U+10FFFF |
| Utf8.EncodeLegacy | detail_string.cpp:6-24 | the legacy `utf8_encode` returns the empty string exactly for code points above U+10FFFF |
| Utf8.DecodeBytes | tomload/detail_string.cpp:27-43 | every scalar value is written as the one well-formed UTF-8 sequence that decodes back to it |
| Utf8.BytesOfDecode | tomload/detail_string.cpp:27-43 | every well-formed UTF-8 sequence is what the encoder writes for the scalar value it decodes to |
| Utf8.EncodeShape | tomload/detail_string.cpp:27-43 | 1, 2, 3 or 4 bytes for code points up to 0x7F, 0x7FF, 0xFFFF and 0x10FFFF, with the lead-byte ranges and the 10xxxxxx continuation bytes of section 3 of RFC 3629 |
| Utf8.EncodeDecode | tomload/detail_string.cpp:26-47 | `utf8_encode` succeeds exactly on scalar values, and its output decodes back to the code point |
| Utf8.LegacyAgrees | detail_string.cpp:6-24 | the legacy encoder writes the same bytes wherever the current one succeeds, and writes three bytes for a surrogate, which the current one rejects |
| Utf8.HiraganaA | unittest/test_functions.cpp:373-386 | U+3042 is encoded as E3 81 82 |
| UnicodeEscape.HexDigit | tomload/detail_string.cpp:118-120 | a locale-independent hex digit has a value below 16 |
| UnicodeEscape.HexValue | tomload/detail_string.cpp:128 | the base-16 value `stoul` reads from n hex digits is below 16^n |
| UnicodeEscape.Parse | tomload/detail_string.cpp:117-130 | `parse_unicode_escape(view, size)` succeeds exactly when at least size characters remain, all of them hex, and their value is a scalar value; it then returns the UTF-8 sequence of that value; every failure is a parse_error |
| UnicodeEscape.ParseLegacy | detail_string.cpp:82-104 | the legacy `parse_unicode_escape` also throws on code points 0x00-0x08, 0x0A-0x1F and 0x7F and on an empty encoding (above U+10FFFF), and otherwise returns the encoder's bytes, surrogates included |
| UnicodeEscape.NulEscape | unittest/test_functions.cpp:389-392 | `\u0000` decodes to one NUL in the current version and is refused by the legacy one |
| UnicodeEscape.HexValueOf | tomload/detail_string.cpp:128 | the value of four hex digits is the usual positional sum |
| UnicodeEscape.HiraganaEscape | unittest/test_functions.cpp:373-386 | `3042` decodes to E3 81 82 in both versions |
| DetailString.BareCharIff | tomload/detail_string.cpp:325 | the character set `get_bare_length` passes to `find_first_not_of` is exactly A-Z, a-z, 0-9, `_` and `-` |
| DetailString.NextNotIn | tomload/detail_string.cpp:163 | `find_first_not_of(chars, from)` is npos or an index from `from` whose character is outside chars |
| DetailString.GetMultiLiteralStringLength | tomload/detail_string.cpp:53-67 | a measured multi-line literal string spans at least its two delimiters |
| DetailString.MultiLiteralClosing | tomload/detail_string.cpp:53-67 | with p the first `'''` from index 3, the length is p + 5, p + 4 or p + 3 as five, four or three quotes start at p; without such a p it throws parse_error "not closed by '''" |
| DetailString.MultiLiteralEndsWithQuotes | tomload/detail_string.cpp:53-67 | the measured token ends with `'''` |
| DetailString.ParseMultiLiteralString | tomload/detail_string.cpp:73-81 | `parse_multi_literal_string` returns the characters between the delimiters, less one CRLF or LF right after the opener |
| DetailString.GetLiteralStringLength | tomload/detail_string.cpp:87-103 | a measured literal string spans at least its two quotes |
| DetailString.FindCharIsLeast | tomload/detail_string.cpp:88 | `view.find(c, from)` is the first index from `from` holding c, or npos |
| DetailString.LiteralLength | tomload/detail_string.cpp:87-103 | `get_literal_string_length` succeeds exactly when some q is the first `'` after the opener with no CR or LF before it, and then returns q + 1; every failure is a parse_error |
| DetailString.ParseLiteralString | tomload/detail_string.cpp:109-111 | `parse_literal_string` returns exactly the characters between the quotes |
| DetailString.StringScanShape | tomload/detail_string.cpp:249-277 | a successful scan stops just past a `"`; every failure is parse_error |
| DetailString.StringLengthShape | tomload/detail_string.cpp:247-278 | a measured basic string spans at least two characters and ends with `"`; every failure (raw CR or LF, unknown escape, truncated `\u`/`\U`, no close) is a parse_error |
| DetailString.GetStringLength | tomload/detail_string.cpp:247-278 | the loop that toggles `detected_backslash` and bumps i past `\u`/`\U` digits computes the scan function |
| DetailString.BasicStep | tomload/detail_string.cpp:289-315 | one pass of the `parse_string` loop always moves forward or fails, and fails only with parse_error or `substr`'s out_of_range |
| DetailString.DecodeBasicLoop | tomload/detail_string.cpp:288-317 | the decoding loop computes the decoder function from index 0 |
| DetailString.BasicIteration | tomload/detail_string.cpp:289-315 | the loop body at index i computes one decoding step: a simple escape, a `\u`/`\U` escape through `parse_unicode_escape`, or a verbatim character |
| DetailString.ParseString | tomload/detail_string.cpp:284-318 | `parse_string(view, length)` decodes the content between the quotes with the current `\u` rule |
| DetailString.CloseLength | tomload/detail_string.cpp:140-145 | at an unescaped index, a run of five, four or three quotes ends the token, and the one or two quotes in front of the closing three belong to the content |
| DetailString.QuoteRuns | tomload/detail_string.cpp:140-145 | the `substr(i, k) == "..."` tests are tests for k quotes in a row |
| DetailString.MultiEscapeNext | tomload/detail_string.cpp:150-187 | after a backslash the scan moves forward or fails with parse_error; a line-ending backslash skips the break and the blanks and breaks that follow it |
| DetailString.MultiScanShape | tomload/detail_string.cpp:138-190 | a successful multi-line scan ends just past a `"""`; every failure is parse_error |
| DetailString.MultiStringLengthShape | tomload/detail_string.cpp:136-191 | a measured multi-line basic string spans at least its two delimiters and ends with `"""`; every failure is parse_error |
| DetailString.SubstrEqIsOccurrence | tomload/detail_string.cpp:140 | `view.substr(i, x.size()) == x` tests for an occurrence of x at i |
| DetailString.ClosingRun | tomload/detail_string.cpp:140-145 | the three `substr` tests compute the closing-run length |
| DetailString.SkipEscaped | tomload/detail_string.cpp:150-187 | the escape branch of the loop computes where the scan resumes, or its error |
| DetailString.GetMultiStringLength | tomload/detail_string.cpp:136-191 | `get_multi_string_length`'s loop computes the multi-line scan function |
| DetailString.MultiStep | tomload/detail_string.cpp:209-238 | one pass of the `parse_multi_string` loop moves forward or fails, and fails only with parse_error or `substr`'s out_of_range |
| DetailString.ParseMultiString | tomload/detail_string.cpp:197-241 | `parse_multi_string` drops one CRLF or LF after the opener, then decodes |
| DetailString.MultiIteration | tomload/detail_string.cpp:209-238 | the loop body at index i computes one multi-line decoding step, including the line-ending backslash that drops whitespace |
| DetailString.DecodeMultiLoop | tomload/detail_string.cpp:208-239 | the decoding loop computes the multi-line decoder from index 0 |
| DetailString.GetBareLength | tomload/detail_string.cpp:324-327 | `get_bare_length` returns the first index >= 1 whose character is not a bare-key character, or the size |
| DetailString.ParseBareValue | tomload/detail_string.cpp:333-335 | `parse_bare_value` returns the first `length` characters |
| DetailStringProperties.EscapeLetter | tomload/detail_string.cpp:292-305 | every character a writer must escape has a letter that the decoder's simple escapes map back to it |
| DetailStringProperties.Escape | tomload/detail_string.cpp:284-318 | escaping a text at most doubles its length |
| DetailStringProperties.EscapeHasNoQuote | tomload/detail_string.cpp:251-254 | every `"` in an escaped body is preceded by a backslash |
| DetailStringProperties.ScanEscaped | tomload/detail_string.cpp:249-277 | the basic-string scanner runs over an escaped body to the quote right after it |
| DetailStringProperties.DecodeEscaped | tomload/detail_string.cpp:288-317 | the basic-string decoder turns an escaped body back into the text |
| DetailStringProperties.StringRoundTrip | tomload/detail_string.cpp:247-318 | a basic string written by escaping s is measured up to its closing quote whatever follows, and decodes back to s under both `\u` rules |
| DetailStringProperties.LiteralRoundTrip | tomload/detail_string.cpp:87-111 | a literal string with no `'`, CR or LF reads back as itself (unittest/test_functions.cpp:251-278) |
| DetailStringProperties.MultiLiteralRoundTrip | tomload/detail_string.cpp:53-81 | a multi-line literal string with no `'` in its text reads back as its text when no quote follows the delimiter; one newline after the opener is dropped, and only that one |
| DetailStringProperties.MultiScanEscaped | tomload/detail_string.cpp:138-190 | the multi-line scanner runs over an escaped body to the delimiter right after it |
| DetailStringProperties.DecodeMultiEscaped | tomload/detail_string.cpp:208-239 | the multi-line decoder turns an escaped body back into the text |
| DetailStringProperties.MultiStringRoundTrip | tomload/detail_string.cpp:136-241 | a multi-line basic string written by escaping s is measured up to its delimiter when no quote follows, and decodes back to s |
| DetailNumber.SpaceEnd | tomload/detail_number.cpp:45 | the white space `strtoll` skips first ends at the first non-space character |
| DetailNumber.DigitEnd | tomload/detail_number.cpp:45 | the digits `strtoll` reads end at the first character that is not a digit of the base |
| DetailNumber.Signed | tomload/detail_number.cpp:44-50 | applying the sign gives a value exactly when it lies in int64, and `out_of_range` otherwise |
| DetailNumber.StoLLOfDigits | tomload/detail_number.cpp:45 | on a plain run of digits `std::stoll` gives the number they denote when it fits in int64, `out_of_range` when it does not, and `invalid_argument` for no digits |
| DetailNumber.StoLLOfSigned | tomload/detail_number.cpp:86 | after a `+` or `-`, `std::stoll` reads the digits and applies the sign |
| DetailNumber.Strip | tomload/detail_number.cpp:36-41 | leaving out the underscores never makes the text longer |
| DetailNumber.StripContents | tomload/detail_number.cpp:36-41 | the copied string keeps exactly the characters other than `_`, and a string without `_` is copied whole |
| DetailNumber.StripConcat | tomload/detail_number.cpp:36-41 | removing underscores distributes over concatenation |
| DetailNumber.RemoveUnderscores | tomload/detail_number.cpp:36-41 | the push_back loop builds the underscore-free string |
| DetailNumber.BadRadixUnderscoresIff | tomload/detail_number.cpp:30-34 | the radix check (leading `_`, trailing `_` or `__`) fails exactly when some underscore lacks a non-underscore character on each side |
| DetailNumber.RadixLengthWith | tomload/detail_number.cpp:8-18 | `get_radix_length` is the first index >= 2 whose character is not in the prefix's digit set or `_`, or the size; the legacy tomload.hpp:217-223 has the same scan |
| DetailNumber.RadixBase | tomload/detail_number.cpp:25-27 | the base picked from the prefix is one of 16, 8, 2 and 10 |
| DetailNumber.RadixAllowedIsDigits | tomload/detail_number.cpp:9-11 | the allowed set picked from `0x`, `0o` or `0b` is exactly the digits of that base and `_` |
| DetailNumber.Convert | tomload/detail_number.cpp:44-50 | the `stoll` outcome becomes a value exactly when `stoll` returns one; both exceptions become parse_error |
| DetailNumber.ParseRadixValueWith | tomload.hpp:228-252 | the legacy `parse_radix_value(view, length, base)` computes the shared underscore check, copy and conversion |
| DetailNumber.ParseRadixValue | tomload/detail_number.cpp:24-52 | `parse_radix_value` picks the base from the prefix and then runs the same body |
| DetailNumber.RadixValueMeaning | tomload/detail_number.cpp:24-52 | over the measured token, a misplaced underscore is "invalid `_`", no digit is "invalid_argument", a value above int64 max is "out_of_range", and otherwise the result is the value of the digits with the underscores removed |
| DetailNumber.RadixExampleHex | unittest/test_functions.cpp:125-150 | "0xF_f" measures 5 and is 255 |
| DetailNumber.RadixExampleUnderscore | unittest/test_functions.cpp:155-164 | "0x_F_F" is "invalid `_`" |
| DetailNumber.RadixExampleBareHex | unittest/test_functions.cpp:151-184 | "0x" has no digit and is "invalid_argument" |
| DetailNumber.RadixExampleNotHex | unittest/test_functions.cpp:151-184 | in "0xz" the `z` ends the token, which then has no digit |
| DetailNumber.RadixExampleNotOctal | unittest/test_functions.cpp:151-184 | in "0o99" the `9` ends the token, which then has no digit |
| DetailNumber.RadixExampleNotBinary | unittest/test_functions.cpp:151-184 | in "0b24" the `2` ends the token, which then has no digit |
| DetailNumber.NoDigitAfterPrefix | tomload/detail_number.cpp:8-52 | a prefix followed by no allowed character measures 2 and is "invalid_argument" |
| DetailNumber.GetIntegerLength | tomload/detail_number.cpp:58-64 | `get_integer_length` is the first index >= 1 not in "0123456789_", or the size |
| DetailNumber.ParseInteger | tomload/detail_number.cpp:70-93 | `parse_integer` computes the underscore checks, the copy and the conversion |
| DetailNumber.BadDecimalUnderscoresIff | tomload/detail_number.cpp:72-75 | the decimal check fails exactly when some `_` is last or followed by another `_` (a leading one is not looked for) |
| DetailNumber.IntegerValueMeaning | tomload/detail_number.cpp:70-93 | over the measured token, a trailing or doubled underscore is "invalid `_`", no digit is "invalid_argument", a value outside int64 is "out_of_range", and otherwise the result is the signed value of the digits |
| DetailNumber.DecimalMeaning | tomload/detail_number.cpp:77-91 | for a token of a sign or digit followed by digits and `_`, the conversion gives the token's signed value or the matching error |
| DetailNumber.DecimalOutcome | tomload/detail_number.cpp:84-91 | a decimal token is "invalid_argument" exactly when it has no digit, and a value is the signed value of its digits |
| DetailNumber.StripAfterSign | tomload/detail_number.cpp:77-82 | the sign stays in front of the stripped digits |
| Parser.NoQuoteSuffix | tomload/parser.cpp:135-146 | a suffix of text without `"` has none either: the texts on which the `"` and `"""` branches, the only ones parser.cpp and tomload/parser.cpp differ in, are never reached stay so as the view advances |
| Parser.NoQuoteStart | tomload/parser.cpp:135-146 | text without `"` does not start with one |
| Parser.DropComment | tomload/parser.cpp:41-47 | cutting a comment at `find('\n')` leaves a suffix that is empty or starts with the line feed, and drops no line feed |
| Parser.SpaceRound | tomload/parser.cpp:28-53 | one round of `skip_space` drops a leading run of characters of spaces and, with skip_comment, a comment up to its line feed; it recurses only when it dropped something, and when it does not it leaves a view starting with neither a space nor (with skip_comment) `#` |
| Parser.AfterSpace | tomload/parser.cpp:28-54 | `skip_space` leaves a suffix of its input that starts with no character of spaces and, with skip_comment, not with `#` |
| Parser.SkipSpace | tomload/parser.cpp:28-54 | the recursion on the advanced view computes that suffix |
| Parser.AfterSpaceNoComment | tomload/parser.cpp:31-37 | without comments, `skip_space` drops only characters of spaces |
| Parser.EmptyMeansBlank | tomload/parser.cpp:28-54 | when `skip_space` with comments consumes everything, the input was spaces and comments only |
| Parser.BlankSkipsAll | tomload/parser.cpp:28-54 | with line feed a space and `#` not, `skip_space` with comments consumes spaces-and-comments text entirely |
| Parser.AfterSpaceEmptyIffBlank | tomload/parser.cpp:28-54 | with comments, and line feed but not `#` among the spaces, `skip_space` leaves nothing exactly when the input is spaces and comments only (unittest/test_functions.cpp:9-40) |
| Parser.NewlineWait | tomload/parser.cpp:7-25 | `wait_newline` leaves a suffix of its input |
| Parser.WaitNewline | tomload/parser.cpp:7-25 | the method computes what `wait_newline` returns and leaves |
| Parser.WaitNewlineMeaning | tomload/parser.cpp:8 | what `wait_newline` skips first is spaces, tabs and CRs only |
| Parser.WaitNewlineValue | tomload/parser.cpp:9-24 | `wait_newline` is true exactly at the end, at a line feed or at a `#` |
| Parser.WaitNewlineFalse | tomload/parser.cpp:22-24 | when false, `wait_newline` consumed only the blanks in front |
| Parser.WaitNewlineRest | tomload/parser.cpp:9-13 | when true at the end it leaves nothing, and after a line feed it leaves what follows the line feed |
| Parser.WaitNewlineComment | tomload/parser.cpp:14-21 | at a `#` it drops the comment up to its line feed, which stays, or to the end when none follows |
| Parser.FirstFixed | tomload/parser.cpp:110-115 | the `for` over `fixed_values` picks the first word, in table order, that the view starts with |
| Parser.After | tomload/parser.cpp:112 | `remove_prefix(length)` leaves the view from `length` on |
| Parser.Taken | tomload/parser.cpp:121-122 | a branch that consumed `length` characters leaves the shorter suffix after them |
| Parser.RadixItem | tomload/parser.cpp:117-122 | the radix branch consumes something when it succeeds |
| Parser.MultiLiteralItem | tomload/parser.cpp:123-128 | the `'''` branch consumes something when it succeeds |
| Parser.LiteralItem | tomload/parser.cpp:129-134 | the `'` branch consumes something when it succeeds |
| Parser.MultiStringItem | tomload/parser.cpp:135-140 | the `"""` branch consumes something when it succeeds |
| Parser.BasicStringItem | tomload/parser.cpp:141-146 | the `"` branch consumes something when it succeeds |
| Parser.ItemValue | tomload/parser.cpp:98-152 | a parsed item always leaves a strictly shorter suffix |
| Parser.ArrayPass | tomload/parser.cpp:68-92 | one pass of the `parse_array` loop either closes on the array of the items so far, throws, or goes on over a strictly shorter suffix |
| Parser.ItemPass | tomload/parser.cpp:76-78 | at `wait_item` the pass pushes `parse_item`'s result and goes on to `wait_comma`, or throws |
| Parser.ArrayLoop | tomload/parser.cpp:68-94 | a completed `parse_array` loop yields an array and leaves a strictly shorter suffix |
| Parser.CommaNext | tomload/parser.cpp:79-88 | `wait_comma` moves past a `,` or throws "missing \",\" in array" |
| Parser.MatchFixed | tomload/parser.cpp:110-115 | the loop over `fixed_values` returns the index of the first word the view starts with |
| Parser.ParseItem | tomload/parser.cpp:98-152 | the method computes what `parse_item` returns and leaves |
| Parser.ParseRadixItem | tomload/parser.cpp:117-122 | the method computes the radix branch |
| Parser.ParseMultiStringItem | tomload/parser.cpp:135-140 | the method computes the `"""` branch |
| Parser.ParseBasicStringItem | tomload/parser.cpp:141-146 | the method computes the `"` branch |
| Parser.ParseArray | tomload/parser.cpp:57-95 | the status loop after the `[` computes the array loop from `wait_item` with no items |
| Parser.ArrayIteration | tomload/parser.cpp:69-91 | the loop body computes one pass |
| Parser.IterationAt | tomload/parser.cpp:71-91 | the loop body after `skip_space` computes one pass at the first non-space character |
| Parser.CommaStep | tomload/parser.cpp:80-88 | the `wait_comma` branch computes the comma test |
| Parser.CommaNextAt | tomload/parser.cpp:80-88 | the comma test succeeds exactly when the first character after the blanks is `,`, and throws "missing \",\" in array" otherwise |
| Parser.FixedWordItem | tomload/parser.cpp:99-115 | each of true, false, inf, +inf, -inf, nan, +nan, -nan, whatever follows it, is its item and consumes exactly the word (unittest/test_functions.cpp:55-123) |
| Parser.NoFixedWord | tomload/parser.cpp:110-115 | no fixed word matches a view that does not start with one of their first characters |
| Parser.NoRadix | tomload/parser.cpp:117 | no radix prefix matches a view that does not start with `0` |
| Parser.ItemNotHit | tomload/parser.cpp:151 | a view that no branch starts with, the empty one included, is "not hit item" (unittest/test_functions.cpp:42-53) |
| Parser.CapitalTrueNotHit | unittest/test_functions.cpp:42-53 | "True" is "not hit item" |
| Parser.NoEarlierBranchAtQuote | tomload/parser.cpp:110-134 | the fixed-word, radix and `'` tests all fail at a `"` |
| Parser.BasicStringItemRoundTrip | tomload/parser.cpp:141-146 | a basic string written by escaping s parses back to s and leaves exactly what follows it, unless an empty string is followed by `"` |
| Parser.EscapedNotTriple | tomload/parser.cpp:135 | an escaped basic string does not open with `"""` unless it is empty and a `"` follows |
| Parser.BasicStringReads | tomload/parser.cpp:141-146 | the `"` branch reads an escaped string back and consumes exactly its length |
| Parser.MultiStringItemRoundTrip | tomload/parser.cpp:135-140 | a multi-line basic string written by escaping s parses back to s when no quote follows it |
| Parser.ItemAtQuote | tomload/parser.cpp:135-146 | at a `"`, `parse_item` takes the `"""` branch when three quotes open the view and the `"` branch otherwise |
| Parser.LiteralItemRoundTrip | tomload/parser.cpp:129-134 | a literal string with no `'`, CR or LF parses back to itself and consumes exactly its length, unless an empty one is followed by `'` |
| Parser.RadixItemExample | unittest/test_functions.cpp:125-150 | "0xF_f" is the integer 255 and leaves the view empty |
| Parser.BoolItems | tomload/parser.cpp:77 | pushing booleans gives one Boolean item per boolean, in order |
| Parser.BoolsArrayLoop | tomload/parser.cpp:68-94 | from `wait_item`, comma-terminated boolean words and a `]` close the array with the booleans appended in source order, and leave what follows |
| Parser.BoolAndComma | tomload/parser.cpp:76-88 | a boolean word and its comma push the boolean and return to `wait_item` |
| Parser.LoopCloses | tomload/parser.cpp:68-92 | a pass that closes ends the loop with its outcome |
| Parser.LoopGoesOn | tomload/parser.cpp:68-92 | a pass that goes on hands the rest of the loop to the new state |
| Parser.CloseBracketPass | tomload/parser.cpp:73-75 | a `]` closes the array with the items so far |
| Parser.BoolWordPass | tomload/parser.cpp:76-78 | at `wait_item` a boolean word is pushed and the loop goes to `wait_comma` |
| Parser.ItemAtPass | tomload/parser.cpp:76-78 | at `wait_item`, anything but `]` is read as an element |
| Parser.CommaPass | tomload/parser.cpp:83-85 | at `wait_comma`, a comma moves on to `wait_item` |
| Parser.CommaAtPass | tomload/parser.cpp:79-88 | at `wait_comma`, anything but `]` goes to the comma test |
| Parser.CommaAt | tomload/parser.cpp:83-85 | a comma at the front is the one `wait_comma` expects |
| Parser.BoolsArrayItem | tomload/parser.cpp:147-148 | `[`, comma-terminated boolean words and `]` parse as the array of those booleans, one trailing comma allowed (unittest/test_functions.cpp:425-516) |
| Parser.ItemAtBracket | tomload/parser.cpp:147-148 | at a `[`, `parse_item` is the `parse_array` loop over what follows the bracket |
| Parser.KeyToken | tomload/parser.cpp:163-189 | a key read at `wait_key` consumes something; an empty view is "unexpected end of input" |
| Parser.WaitKey | tomload/parser.cpp:160-200 | the loop from `wait_key` leaves a suffix of its input |
| Parser.WaitDot | tomload/parser.cpp:190-199 | the loop from `wait_dot` leaves a suffix of its input |
| Parser.KeysFound | tomload/parser.cpp:201-204 | the check after the loop succeeds exactly when some key was read |
| Parser.ParseKeys | tomload/parser.cpp:155-205 | the `for(;;)` loop with the `wait_dot` flag computes what `parse_keys` returns and leaves |
| Parser.ParseKeyToken | tomload/parser.cpp:163-189 | the method computes the key read at `wait_key` |
| Parser.WaitKeyShape | tomload/parser.cpp:155-205 | a successful `parse_keys` from `wait_key` pushes at least one key after the earlier ones and stops at neither a dot, a space nor a tab |
| Parser.WaitDotShape | tomload/parser.cpp:190-205 | the same from `wait_dot`: the keys so far are kept, at least one key is returned, and the view left does not start with a dot, space or tab |
| Parser.WaitKeyErrors | tomload/parser.cpp:163-203 | every exception from `wait_key` is one thrown while reading some key; the `keys.empty()` check never fires |
| Parser.WaitDotErrors | tomload/parser.cpp:190-203 | the same from `wait_dot` once a key has been pushed |
| Parser.KeysValueErrors | tomload/parser.cpp:155-205 | `parse_keys` throws only what reading some key threw, so never "no keys found" |
| Parser.BareKeyToken | tomload/parser.cpp:166-172 | a bare key followed by no bare-key character is the key read there |
| Parser.BareKeyStep | tomload/parser.cpp:166-172 | at `wait_key` such a key is pushed whole and the loop goes to `wait_dot` |
| Parser.DotStep | tomload/parser.cpp:193-195 | at `wait_dot` a dot goes back to `wait_key` |
| Parser.EndStep | tomload/parser.cpp:191-198 | at `wait_dot` anything but a dot or blank is the `break`, which returns the keys |
| Parser.DottedSplit | tomload/parser.cpp:160-200 | dotted bare keys split at their first key |
| Parser.DottedKeys | tomload/parser.cpp:160-200 | dotted bare keys are pushed one by one, leaving the loop at `wait_dot` after the last |
| Parser.DottedKeysRoundTrip | tomload/parser.cpp:155-205 | dotted bare keys followed by neither a key character, a dot nor a blank parse back to themselves and leave what follows |
| Parser.TrailingDotKeys | tomload/parser.cpp:164-165 | dotted keys ending in a dot are "unexpected end of input" |
| Parser.TrailingDot | tomload/parser.cpp:164-165 | a dot at the very end leaves `wait_key` with nothing to read |
| Parser.LiteralKeyToken | tomload/parser.cpp:173-179 | a literal-string key is the text between its quotes |
| Parser.BasicKeyToken | tomload/parser.cpp:180-186 | a basic-string key is the escaped text decoded |
| Parser.KeyExpectedString | tomload/parser.cpp:187-189 | a key that starts outside key characters and quotes is "expected string" |
| Parser.SpaceRoundShape | tomload/parser.cpp:28-53 | one round with skip_comment drops a run of spaces, then at most one comment up to its line feed |
| Parser.RoundIsBlank | tomload/parser.cpp:28-53 | what one round drops in front of spaces-and-comments text makes spaces-and-comments text |
| Parser.AfterSpaceStays | tomload/parser.cpp:31-37 | without comments, `skip_space` leaves a view that does not start with a space as it is |
| Parser.AfterBlanks | tomload/parser.cpp:31-37 | without comments, `skip_space` drops exactly a run of spaces in front of a character that is not one |
| Parser.DropCommentAt | tomload/parser.cpp:41-45 | a comment is cut at its first line feed, which stays |
| Parser.AfterSpaceStaysComment | tomload/parser.cpp:28-53 | with comments, `skip_space` leaves a view that starts with neither a space nor `#` as it is |
| Parser.AfterBlanksComment | tomload/parser.cpp:28-53 | with comments, `skip_space` drops exactly a run of spaces in front of a character that is neither a space nor `#` |
| Parser.PassAt | tomload/parser.cpp:71-91 | a pass at the first non-space character closes on the array of the items so far or goes on over a strictly shorter suffix |
| Parser.FixedWordsDiffer | tomload/parser.cpp:99-108 | no two words of `fixed_values` agree in both of their first two characters, so at most one of them opens a view |
| Parser.FirstFixedIs | tomload/parser.cpp:110-115 | the loop over `fixed_values` stops at the first word that matches |
| Parser.FirstFixedNone | tomload/parser.cpp:110-115 | the loop over `fixed_values` finds nothing when no word matches |
| Parser.DotAt | tomload/parser.cpp:193-195 | a dot at the front is the one `wait_dot` moves past, and no blank is skipped before it |
| Parser.NoDotAt | tomload/parser.cpp:191-198 | a view that starts with neither a dot nor a blank is where `wait_dot` breaks |
| Parser.DotInput | tomload/parser.cpp:160-200 | dotted bare keys then a dot stop the key loop at that dot |
| LegacyParser.StringItem | parser.cpp:144-149 | the `"` branch of the root `parse_item` consumes something when it succeeds |
| LegacyParser.ItemValue | parser.cpp:95-155 | a parsed item always leaves a strictly shorter suffix |
| LegacyParser.ArrayPass | parser.cpp:66-90 | one pass of the `parse_array` loop closes on the array of the items so far, throws, or goes on over a strictly shorter suffix |
| LegacyParser.PassAt | parser.cpp:69-89 | the pass after `skip_space` closes on the items so far or goes on over a strictly shorter suffix |
| LegacyParser.ItemPass | parser.cpp:74-76 | at `wait_item` the pass pushes `parse_item`'s result and goes on to `wait_comma`, or throws |
| LegacyParser.ArrayLoop | parser.cpp:66-92 | a completed `parse_array` loop yields an array and leaves a strictly shorter suffix |
| LegacyParser.ParseItem | parser.cpp:95-155 | the method computes what the root `parse_item` returns and leaves |
| LegacyParser.ParseStringItem | parser.cpp:144-149 | the method computes the `"` branch |
| LegacyParser.ParseArray | parser.cpp:55-93 | the status loop after the `[` computes the array loop from `wait_item` with no items |
| LegacyParser.ArrayIteration | parser.cpp:67-89 | the loop body computes one pass |
| LegacyParser.IterationAt | parser.cpp:69-89 | the loop body after `skip_space` computes one pass at the first non-space character |
| LegacyParser.NoTripleQuote | parser.cpp:144 | a view not starting with `"` does not start with `"""` |
| LegacyParser.FrontAgrees | parser.cpp:107-143 | away from `"` and `[`, the root `parse_item` and that of tomload/parser.cpp:110-134 take the same branch with the same outcome: the three radix branches are the one of tomload/parser.cpp |
| LegacyParser.ItemRefines | parser.cpp:95-155 | on text without `"`, the root `parse_item` and that of tomload/parser.cpp:98-152 return the same item or error and leave the same rest |
| LegacyParser.ArrayBranch | parser.cpp:150-151 | at a `[`, the root `parse_item` runs its array loop |
| LegacyParser.CurrentArrayBranch | tomload/parser.cpp:147-148 | at a `[`, the `parse_item` of tomload/ runs its array loop |
| LegacyParser.BracketFront | parser.cpp:107-151 | a `[` fails every test before the array branch and passes that one |
| LegacyParser.LoopRefines | parser.cpp:66-92 | on text without `"`, both `parse_array` loops give the same outcome |
| LegacyParser.PassRefines | parser.cpp:67-89 | on text without `"`, one pass of both loops is the same |
| LegacyParser.ItemPassRefines | parser.cpp:74-76 | at `wait_item`, both passes push the same item on text without `"` |
| LegacyParser.LegacyItemStep | parser.cpp:74-76 | at `wait_item`, away from the end and `]`, the root pass is the element step |
| LegacyParser.ParserItemStep | tomload/parser.cpp:76-78 | at `wait_item`, away from the end and `]`, the tomload/ pass is the element step |
| LegacyParser.ItemPassSame | parser.cpp:74-76 | equal items give equal element steps |
| LegacyParser.OtherPassAgrees | parser.cpp:69-88 | at the end, at `]` and at `wait_comma` the two passes are the same text and agree |
| LegacyParser.StringRoundTrip | parser.cpp:144-149 | a basic string written by escaping s parses back to s and leaves exactly what follows, whatever follows: there is no `"""` branch |
| LegacyParser.TripleQuoteIsEmpty | parser.cpp:144-149 | `"""` is the empty string followed by a quote, where tomload/parser.cpp:135-140 reads a multi-line delimiter |
| LegacyDetailString.ParseString | detail_string.cpp:142-176 | the root `parse_string` is the content between the quotes decoded with the legacy `\u` rule (the one of detail_string.cpp:82-104) |
| LegacyDetailString.KeyToken | detail_string.cpp:204-230 | a key read at `wait_key` consumes something; an empty view is "unexpected end of input" |
| LegacyDetailString.WaitKey | detail_string.cpp:201-241 | a loop from `wait_key` that returns leaves a suffix of its input |
| LegacyDetailString.WaitDot | detail_string.cpp:231-240 | a loop from `wait_dot` that returns leaves a suffix of its input |
| LegacyDetailString.ParseKeys | detail_string.cpp:196-246 | the `for(;;)` loop computes what `parse_keys` does, the state it spins in included |
| LegacyDetailString.ParseKeyToken | detail_string.cpp:204-230 | the method computes the key read at `wait_key` |
| LegacyDetailString.WaitKeySpins | detail_string.cpp:228-230 | where the model stops at Spins, the C++ loop is at a fixed point: `skip_space` leaves the view as it is, no branch of `wait_key` is taken, so every later pass repeats it, and the keys pushed so far are kept |
| LegacyDetailString.WaitDotSpins | detail_string.cpp:231-240 | the same from `wait_dot` |
| LegacyDetailString.SkippedStays | detail_string.cpp:202 | what `skip_space` leaves, it leaves as it is |
| LegacyDetailString.AsCurrent | tomload/parser.cpp:187-189 | the outcome of tomload/ for a legacy key reading is a key exactly when the legacy code read one |
| LegacyDetailString.KeysAsCurrent | tomload/parser.cpp:155-205 | a success of tomload/ comes from a legacy loop that returned |
| LegacyDetailString.KeyTokenAgrees | detail_string.cpp:204-230 | away from basic strings, tomload/parser.cpp:163-189 reads a key as the root code does, and throws "expected string" where the root code takes no branch |
| LegacyDetailString.WaitKeyAgrees | detail_string.cpp:196-246 | on text without `"`, the `parse_keys` of tomload/parser.cpp:155-205 is the root one with the loop that never ends turned into "expected string" |
| LegacyDetailString.WaitDotAgrees | detail_string.cpp:231-240 | the same from `wait_dot` |
| LegacyDetailString.TrailingDotSpins | detail_string.cpp:228-230 | a one-letter key, a dot and `=` leave the loop spinning at `=` with that key pushed |
| LegacyDetailString.TrailingDotThrows | tomload/parser.cpp:187-189 | there tomload/ throws "expected string" |
| LegacyDetailString.FirstKey | detail_string.cpp:207-213 | a one-letter key is read and pushed |
| LegacyDetailString.DotThenStuck | detail_string.cpp:234-236 | from `wait_dot` at `.=`, the dot is taken, then `=` takes no branch |
| LegacyDetailString.NoQuoteKeyDot | detail_string.cpp:221 | `k.=` holds no `"` |
| LegacyDetailString.KeyStep | detail_string.cpp:207-227 | a key read at `wait_key` moves to `wait_dot` with it pushed |
| LegacyDetailString.DotStep | detail_string.cpp:234-236 | the dot of `.=` goes back to `wait_key` at `=` |
| LegacyDetailString.StuckStep | detail_string.cpp:228-230 | no branch taken at `wait_key`: the loop spins there |
| LegacyDetailString.BareKeyAt | detail_string.cpp:207-213 | a one-letter bare key with no bare character after it is read whole |
| LegacyDetailString.DotFront | detail_string.cpp:234-236 | the dot in `.=` is the one `wait_dot` moves past |
| LegacyDetailString.StuckAt | detail_string.cpp:228-230 | `=` starts no key |
| TomloadHpp.ItemValue | tomload.hpp:413-490 | a parsed item leaves a suffix of its input; it may consume nothing, only when an array gives up |
| TomloadHpp.ArrayItem | tomload.hpp:376-411 | the `[` branch leaves a suffix, the whole view again when the loop gives up |
| TomloadHpp.ArrayPass | tomload.hpp:390-408 | one pass closes on the array of the items so far or goes on from a suffix to the other status, strictly shorter after a comma |
| TomloadHpp.PassAt | tomload.hpp:393-407 | the pass after `skip_space` closes on the items so far or goes on from a suffix to the other status |
| TomloadHpp.ArrayLoop | tomload.hpp:390-410 | a loop that closes yields an array and leaves a suffix |
| TomloadHpp.ParseItem | tomload.hpp:413-490 | the method computes what `parse_item` of tomload.hpp returns and leaves |
| TomloadHpp.ParseArray | tomload.hpp:376-411 | the status loop with `backup` computes the `[` branch |
| TomloadHpp.ArrayIteration | tomload.hpp:390-408 | the loop body computes one pass |
| TomloadHpp.IterationAt | tomload.hpp:393-407 | the loop body after `skip_space` computes one pass |
| TomloadHpp.PlainStart | tomload.hpp:413-487 | a view not starting with `"` does not start with `"""` |
| TomloadHpp.ItemAgrees | tomload.hpp:416-482 | away from `"` and `[`, the `parse_item` of tomload.hpp and that of tomload/parser.cpp:98-152 read the same item or throw the same error |
| TomloadHpp.FrontChar | tomload.hpp:416-484 | a view opening with `"` or `[` fails the fixed-word, radix and literal tests |
| TomloadHpp.NoBasicString | tomload.hpp:485-487 | a `"` is "not hit item": tomload.hpp has no basic-string branch |
| TomloadHpp.ArrayFront | tomload.hpp:483-484 | at a `[`, both `parse_item` go to their `parse_array` |
| TomloadHpp.ItemRefines | tomload.hpp:413-490 | on text without `"`, whatever the `parse_item` of tomload/parser.cpp:98-152 reads, that of tomload.hpp reads as the same item and rest |
| TomloadHpp.LoopRefines | tomload.hpp:390-410 | on text without `"`, an array the tomload/ loop closes the tomload.hpp loop closes the same way |
| TomloadHpp.PassRefines | tomload.hpp:390-408 | on text without `"`, each pass of the two loops agrees where the tomload/ one does not throw |
| TomloadHpp.CloseRefines | tomload.hpp:393-395 | at the end and at `]` the two passes agree |
| TomloadHpp.ItemPassRefines | tomload.hpp:396-398 | at `wait_item`, on text without `"`, the two passes agree |
| TomloadHpp.CommaPassRefines | tomload.hpp:399-406 | at `wait_comma` the two passes agree on a comma; where tomload/ throws "missing" tomload.hpp gives up |
| TomloadHpp.ParserCommaStep | tomload/parser.cpp:79-88 | the tomload/ `wait_comma` pass is its comma test |
| TomloadHpp.ParserCommaNext | tomload/parser.cpp:80-88 | the tomload/ comma test moves past a `,` and throws "missing \",\" in array" on anything else |
| TomloadHpp.LegacyCommaStep | tomload.hpp:399-406 | the tomload.hpp `wait_comma` pass moves past a `,` and gives up on anything else |
| TomloadHpp.FixedWordPass | tomload.hpp:396-398 | at `wait_item`, a fixed word is pushed and the loop goes to `wait_comma` after it |
| TomloadHpp.StuckPass | tomload.hpp:403-406 | at `wait_comma`, a character that is neither a space, `,` nor `]` makes the loop give up |
| TomloadHpp.LoopGivesUp | tomload.hpp:390-406 | a fixed word then such a character: the loop gives up |
| TomloadHpp.BracketSplit | tomload.hpp:379 | `parse_array` loops over the text after its `[` |
| TomloadHpp.GivesUp | tomload.hpp:404-405 | after a fixed word, such a character makes `parse_array` return a default item with the view back at its `[`, where tomload/parser.cpp:86-87 throws |
| TomloadHpp.BareLengthLegacy | tomload.hpp:257-265 | `get_bare_length` of tomload.hpp: the first index from 2 on that is not a bare-key character, or the size; 2 or less on a short view |
| TomloadHpp.BareLengthAgrees | tomload.hpp:257-265 | the scan from 2 agrees with that of tomload/detail_string.cpp:324-327 exactly when the view is shorter than 2 or its second character is a bare-key character |
| TomloadHpp.StartAt | tomload.hpp:534-552 | `start` after the blanks: ends at the end of the input, opens a header at `[`, reads a bare key, or does nothing; `ret` is unchanged and it never throws |
| TomloadHpp.BracketStringAt | tomload.hpp:553-568 | `bracket_wait_string` after the blanks: `]`, a bare key pushed on brackets, or nothing; `ret` unchanged |
| TomloadHpp.BracketNewlineAt | tomload.hpp:569-572 | `bracket_wait_newline` leaves `ret` unchanged and makes progress |
| TomloadHpp.PairDotAt | tomload.hpp:573-582 | `pair_wait_dot` moves to `pair_wait_value` at `=` and does nothing otherwise; `ret` unchanged |
| TomloadHpp.PairValueAt | tomload.hpp:583-587 | `pair_wait_value` throws exactly what `parse_item` threw and otherwise inserts the item and moves on |
| TomloadHpp.PairNewlineAt | tomload.hpp:588-593 | `pair_wait_newline` goes back to `start` when `wait_newline` holds and breaks out of the loop with `ret` otherwise |
| TomloadHpp.Step | tomload.hpp:533-599 | every pass moves further on (shorter view or lower status rank) or leaves every variable as it was |
| TomloadHpp.BareLength | tomload.hpp:257-265 | the method computes `get_bare_length` of tomload.hpp |
| TomloadHpp.Parse | tomload.hpp:514-602 | the status loop computes the run of `parse`, returning the state it would repeat forever |
| TomloadHpp.Iteration | tomload.hpp:534-598 | the loop body computes one pass |
| TomloadHpp.StartIteration | tomload.hpp:536-552 | the `start` branch after `skip_space` |
| TomloadHpp.BracketStringIteration | tomload.hpp:555-568 | the `bracket_wait_string` branch after `skip_space` |
| TomloadHpp.PairValueIteration | tomload.hpp:583-587 | the `pair_wait_value` branch |
| TomloadHpp.DivergesIsStuck | tomload.hpp:533-599 | where the run is said to spin, a pass indeed leaves every variable as it was, so the C++ loop never ends |
| TomloadHpp.OnlyItemThrows | tomload.hpp:583-586 | only `pair_wait_value` throws, and only what `parse_item` throws there |
| TomloadHpp.RootOnlyAtValue | tomload.hpp:533-599 | `ret` changes only at `pair_wait_value`; the loop ends only at `start` at the end of the input or at `pair_wait_newline` with no line end |
| TomloadHpp.StepKeepsKeyed | tomload.hpp:543-548 | `keys` holds exactly one key from `pair_wait_dot` to `pair_wait_newline`, and every pass keeps that |
| TomloadHpp.ValueLands | tomload.hpp:583-587 | the inserted item lands at brackets + keys, and each table along that path holds just the next key: `insert_table` rebuilds the header's tables |
| TomloadHpp.BareWordScan | tomload.hpp:257-269 | a bare word of two characters or more followed by no key character is taken whole |
| TomloadHpp.BareFront | tomload.hpp:534-554 | a view starting with a bare-key character is left as it is by both `skip_space` calls |
| TomloadHpp.BareNoBracket | tomload.hpp:538-542 | a view starting with a bare-key character opens no header and goes to the bare-key branch |
| TomloadHpp.AllSpaces | tomload.hpp:272-298 | text made of spaces only is all `skip_space` drops |
| TomloadHpp.StartHeaderStep | tomload.hpp:538-541 | `start` at `[` clears brackets and goes to `bracket_wait_string` |
| TomloadHpp.StartKeyAt | tomload.hpp:542-549 | `start` reads a bare word as the pair's one key and goes to `pair_wait_dot` |
| TomloadHpp.StartKeyStep | tomload.hpp:534-549 | the same after blank lines |
| TomloadHpp.BracketKeyAt | tomload.hpp:560-565 | `bracket_wait_string` pushes a bare word on brackets |
| TomloadHpp.BracketKeyStep | tomload.hpp:553-565 | the same as a pass of the loop |
| TomloadHpp.BracketKeyMoves | tomload.hpp:553-565 | the same, stated on the next state |
| TomloadHpp.TraceMoves | tomload.hpp:533 | a pass that moves elsewhere leaves the rest of the run to that state |
| TomloadHpp.BareKeyFront | tomload.hpp:554 | `skip_space` leaves a bare word in front as it is |
| TomloadHpp.BracketCloseStep | tomload.hpp:557-559 | `]` goes to `bracket_wait_newline` |
| TomloadHpp.NewlineStep | tomload.hpp:569-590 | a holding `wait_newline` goes back to `start` |
| TomloadHpp.EndStep | tomload.hpp:535-537 | blank text at `start` completes the run with `ret` |
| TomloadHpp.EqualsStep | tomload.hpp:574-579 | `=` after blanks goes to `pair_wait_value` |
| TomloadHpp.ValueStep | tomload.hpp:583-587 | a parsed item is inserted under brackets + keys and the loop goes to `pair_wait_newline` |
| TomloadHpp.CommentHeaderOpen | tomload.hpp:538-559 | `[aa]` up to its `]` leaves brackets holding aa |
| TomloadHpp.CommentNewline | tomload.hpp:300-320 | `wait_newline` drops the blanks and the comment and stops at the line feed |
| TomloadHpp.CommentHeaderLine | tomload.hpp:569-572 | the comment after the header goes back to `start` at its line feed |
| TomloadHpp.EndAt | tomload.hpp:534-537 | `start` at a lone line feed or at the end completes the run |
| TomloadHpp.CommentHeaderLegacy | unittest/test_functions.cpp:520-524 | `[aa] #comm` and a line feed give an empty table: a header makes no table until a pair is inserted under it |
| TomloadHpp.FalseWord | tomload.hpp:420-423 | `false` is the boolean false |
| TomloadHpp.PairHead | tomload.hpp:534-579 | the key bb and its `=` |
| TomloadHpp.PairValueLine | tomload.hpp:583-590 | the value false is inserted under the brackets, then the line feed goes back to `start` |
| TomloadHpp.PairValueMoves | tomload.hpp:583-587 | the value false is inserted under the brackets |
| TomloadHpp.LineFeedMoves | tomload.hpp:588-590 | the line feed ending the line goes back to `start` |
| TomloadHpp.OnePairTable | tomload.hpp:492-512 | `insert_table` of false at aa.bb into the empty table gives aa holding bb |
| TomloadHpp.CommentThenPairLegacy | tomload.hpp:514-602 | `[aa] #comm`, a line feed and `bb = false` give one key aa whose table holds bb = false |
| TomloadHpp.ShortScan | tomload.hpp:257-265 | a key character and one more: the scan from 2 takes both, whatever the second is |
| TomloadHpp.ShortKeyFront | tomload.hpp:554-557 | `bracket_wait_string` sees such a key with no blank and no `]` in front |
| TomloadHpp.BracketShortStep | tomload.hpp:560-565 | at `bracket_wait_string`, a two-character word whose second character is no key character still becomes one header key |
| TomloadHpp.StuckFront | tomload.hpp:554-557 | a character that is neither a blank nor `]` is left by `skip_space` and fails the `]` test |
| TomloadHpp.BracketSpins | tomload.hpp:566-567 | at `bracket_wait_string`, a character that is neither a blank, `]` nor a key character makes a pass that changes nothing: the loop spins |
| TomloadHpp.StuckAt | tomload.hpp:566-567 | the `;` branch of `bracket_wait_string` changes nothing |
| TomloadHpp.OneLetterHeaderSpins | tomload.hpp:257-265 | `[a]` and a line feed: the header key becomes `a]` and the loop spins at the line feed |
| TomloadHpp.OneLetterHeaderKey | tomload.hpp:553-568 | the header key `a]`, then the pass that spins |
| TomloadHpp.ShortStartFront | tomload.hpp:535-542 | `start` sees a two-character key with no blank, comment or `[` in front |
| TomloadHpp.StartShortStep | tomload.hpp:542-549 | at `start`, such a word becomes the pair's key |
| TomloadHpp.TrueWord | tomload.hpp:416-419 | `true` is the boolean true |
| TomloadHpp.OneLetterPairHead | tomload.hpp:542-579 | `a = true` up to its value reads the key `a ` |
| TomloadHpp.OneKeyTable | tomload.hpp:500-511 | `insert_table` of true at the single key `a ` with no header |
| TomloadHpp.OneLetterPairValue | tomload.hpp:583-590 | the value true under `a `, then the line feed, then the end |
| TomloadHpp.OneKeyLine | tomload.hpp:588-590 | the line feed after the value, then the end |
| TomloadHpp.OneLetterKeyTakesBlank | tomload.hpp:257-265 | `a = true` and a line feed give the key `a `, the blank after a taken in |
| TomloadHpp.NoEqualsFront | tomload.hpp:574-577 | a character that is neither a blank nor `=` is left by `skip_space` and fails the `=` test |
| TomloadHpp.PairDotSpins | tomload.hpp:580-581 | at `pair_wait_dot`, anything but blanks and `=` makes a pass that changes nothing: the loop spins |
| TomloadHpp.DottedKeySpins | tomload.hpp:573-582 | `aa.bb=true` and a line feed: `pair_wait_dot` has no branch for the dot and the loop spins there with aa read |
| Items.ExactlyOneKind | tomload/tomload.cpp:58-85 | a default item passes none of the six `is_*` tests and every other item exactly one (tomload/tomload.h:55-73) |
| Items.Mismatch | tomload/tomload.cpp:88-91 | tomload/ throws type_error where tomload.hpp:80-84 throws parse_error |
| Items.GetBoolean | tomload/tomload.cpp:88-93 | `get_boolean` succeeds exactly on a boolean, returns its payload, and throws "type mismatch" otherwise (`get_bool`, tomload.hpp:80-85) |
| Items.GetInteger | tomload/tomload.cpp:96-101 | `get_integer` succeeds exactly on an integer and returns its payload, else "type mismatch" (tomload.hpp:86-91) |
| Items.GetFloat | tomload/tomload.cpp:104-109 | `get_float` succeeds exactly on a float and returns its payload, else "type mismatch" (tomload.hpp:92-97) |
| Items.GetString | tomload/tomload.cpp:112-117 | `get_string` succeeds exactly on a string and returns it, else "type mismatch" (tomload.hpp:98-103) |
| Items.ConstructorsRoundTrip | tomload/tomload.cpp:22-43 | each scalar constructor is undone by its getter, and another getter refuses the item |
| Items.Size | tomload/tomload.cpp:126-134 | `size` is the element count of an array or a table and throws "neither array nor table" otherwise (tomload.hpp:105-112) |
| Items.AtIndex | tomload/tomload.cpp:144-150 | `operator[](index)` succeeds exactly on an array with index in range and returns that element; "not array" on other kinds, std::out_of_range past the end |
| Items.AtKey | tomload/tomload.cpp:160-166 | `operator[](key)` succeeds exactly on a table holding key and returns its value; "not table" on other kinds, std::out_of_range on a missing key |
| Items.Contains | tomload/tomload.cpp:176-182 | `contains` is defined exactly on tables, is true exactly when `operator[](key)` would succeed, and throws type_error "not table" otherwise |
| Items.ContainsLegacy | tomload.hpp:131-137 | `contains` of tomload.hpp is true exactly when that of tomload/ returns true: false on anything but a table |
| Items.ArrayRange | tomload/tomload.cpp:191-212 | the array iterators, and so `array_range` (251-257), run over the elements and throw "not array" on anything else |
| Items.TableRange | tomload/tomload.cpp:221-242 | the table iterators, and so `table_range` (266-272), run over the entries and throw "not table" on anything else |
| Items.ArrayRangeLegacy | tomload.hpp:194-200 | `array_range` of tomload.hpp is the elements, and empty on anything but an array |
| Items.TableRangeLegacy | tomload.hpp:202-208 | `table_range` of tomload.hpp is the entries, and empty on anything but a table |
| Items.RangesAgree | tomload.hpp:194-208 | where tomload/ throws for a range, tomload.hpp hands out an empty one; elsewhere both are the same |
| Items.Get | tomload/tomload.h:97-120 | `get<PARAM>` returns true exactly when the if-chain has a branch for PARAM and the item's kind, assigns the payload then, and leaves `val` as it was when it returns false (tomload.hpp:56-78) |
| Items.BoolIsNotNumeric | tomload/tomload.h:99-114 | a bool is never read as a number, nor a number as a bool, while an integer is read as a double |
| Tree.PushBack | tomload/tomload.h:134-139 | `push(item)` succeeds exactly on an array, appends item after the elements left unchanged, and throws "not array" otherwise |
| Tree.PushKey | tomload/tomload.cpp:309-315 | `push(key, val)` succeeds exactly on a table; the key set gains key; an existing value under key is kept, otherwise val is stored; every other key is unchanged; the returned `item_t*` points at what key holds afterwards; "not table" otherwise (tomload/tomload.h:140-145) |
| Tree.Descend | tomload/tomload.cpp:293-297 | one `push(key, empty table)` step with its `is_table` check succeeds exactly when key holds a table or nothing, steps into that table or a fresh empty one, and throws "expected table" otherwise |
| Tree.PlaceAt | tomload/tomload.cpp:291-305 | the keys loop throws only "expected table" or "already reginstered" |
| Tree.LookupStep | tomload/tomload.cpp:160-166 | looking up a path one key at a time through `operator[](key)` |
| Tree.PlaceAtSucceeds | tomload/tomload.cpp:291-305 | the keys loop succeeds exactly when every proper prefix of keys holds a table or nothing and keys itself holds nothing |
| Tree.PathPrefixStep | tomload/tomload.cpp:291-305 | two paths with the same first key are prefix-related exactly when their rests are |
| Tree.EmptyLookup | tomload/tomload.cpp:15-19 | nothing is found under an empty table |
| Tree.PlaceAtLands | tomload/tomload.cpp:291-305 | after the keys loop, val is at keys and every proper prefix of keys is a table |
| Tree.PlaceAtFrame | tomload/tomload.cpp:291-305 | after the keys loop, a path that neither is a prefix of keys nor extends it reads as before, and one that extends keys reads into val |
| Tree.Merge | tomload/tomload.cpp:282-306 | `merge` throws "not table" on a non-table and "no keys" on no keys, and otherwise places val at keys |
| Tree.InsertEmptyTable | tomload/tomload.cpp:318-327 | `insert_empty_table` throws only "expected table" |
| Tree.InsertNewTableIsPlaceAt | tomload/tomload.cpp:330-354 | `insert_new_table` is placing val at brackets followed by keys, and with no keys it is `insert_empty_table` |
| Tree.InsertEmptyTableMeaning | tomload/tomload.cpp:318-327 | `insert_empty_table` succeeds exactly when no prefix of brackets holds anything but a table, and afterwards every prefix of brackets names a table |
| Tree.InsertEmptyTableFrame | tomload/tomload.cpp:318-327 | `insert_empty_table` changes no path that is not a prefix of brackets |
| Tree.LegacyWalkLands | tomload.hpp:492-512 | with at least one key the tomload.hpp `insert_table` walk always succeeds: item is at the path and every proper prefix is a table holding just the next key, whatever was there |
| Tree.InsertTableLegacyLands | tomload.hpp:492-512 | `insert_table` with keys puts item at brackets + keys, and the tables along the way hold that path only |
| Tree.LegacyDropsSibling | tomload.hpp:494-498 | a second pair under a header loses the first in tomload.hpp, where tomload/tomload.cpp:330-354 keeps it |
| Document.EqualsNext | tomload/tomload.cpp:382-389 | past the keys of a pair, the view at its value is a strictly shorter suffix, or the error is "expected '='" |
| Document.Load | tomload/tomload.cpp:15-19 | `item_t(view)` yields a table when it succeeds |
| Document.ParseMain | tomload/tomload.cpp:357-401 | the `for(;;)` loop with `ini_state` computes the statement-by-statement reading from an empty bracket list |
| Document.Iteration | tomload/tomload.cpp:362-400 | one pass ends the loop with its outcome or goes on from a state with the same outcome and a smaller variant |
| Document.LineIteration | tomload/tomload.cpp:367-392 | a header or a pair at `ini_state` advances the loop |
| Document.HeaderIteration | tomload/tomload.cpp:367-378 | a header: its keys, `]`, then `insert_empty_table` |
| Document.PairIteration | tomload/tomload.cpp:379-380 | a pair: its keys |
| Document.PairValueIteration | tomload/tomload.cpp:382-391 | a pair past its keys |
| Document.EqualsSign | tomload/tomload.cpp:382-389 | the method computes the `=` step |
| Document.PairItemIteration | tomload/tomload.cpp:390-391 | the value of a pair and its `insert_new_table` |
| Document.BlankStatements | tomload/tomload.cpp:364-366 | blank and comment-only text leaves the table as it was |
| Document.BlankLoad | tomload/tomload.cpp:15-19 | empty, blank or comment-only input loads as an empty table (unittest/test_functions.cpp:9-40) |
| Document.TextCons | tomload/tomload.cpp:362-400 | a document splits into its first line and the others |
| Document.BareCharIsNone | tomload/tomload.cpp:364-380 | a bare-key character is neither a blank, a line break, `#`, `[`, `.` nor `=` |
| Document.KeyEnds | tomload/parser.cpp:190-198 | `]` and `=` end keys |
| Document.NewlineAt | tomload/parser.cpp:11-13 | a line feed is what `wait_newline` consumes |
| Document.CloseText | tomload/tomload.cpp:371-375 | after a header's keys, `]` then a line feed |
| Document.HeaderCloseStep | tomload/tomload.cpp:371-375 | `]` and a line feed close a header: its tables are made and it becomes the brackets |
| Document.ClosedBy | tomload/tomload.cpp:371-395 | `]` and whatever `wait_newline` accepts close a header |
| Document.CloseAt | tomload/tomload.cpp:371-373 | a `]` right after the keys |
| Document.HeaderFront | tomload/tomload.cpp:364-369 | the front of a header line: nothing to skip, the `[`, the keys |
| Document.HeaderText | tomload/tomload.cpp:364-373 | a header line: its front, then `]` and a line feed after the keys |
| Document.KeysAt | tomload/parser.cpp:155-205 | keys followed by a character that neither goes on with a key nor is a dot or a blank are read whole |
| Document.LineAt | tomload/tomload.cpp:364 | a line with nothing to skip in front |
| Document.HeaderAt | tomload/tomload.cpp:367-369 | a line that opens with `[` is a header |
| Document.HeaderKeys | tomload/tomload.cpp:369-374 | a header's keys are the brackets it closes |
| Document.HeaderStep | tomload/tomload.cpp:367-375 | a header line makes its tables exist and becomes the brackets |
| Document.DottedHead | tomload/tomload.cpp:379-380 | bare dotted keys start with a bare-key character |
| Document.PairText | tomload/tomload.cpp:379-391 | the pieces of a pair line |
| Document.Regroup | tomload/tomload.cpp:379-391 | the pieces of a pair line, grouped from the right |
| Document.EqualsAt | tomload/tomload.cpp:382-389 | a pair's `=` with no blanks around it |
| Document.WordAt | tomload/parser.cpp:110-115 | a boolean word is parsed as its item |
| Document.PairItemStep | tomload/tomload.cpp:390-395 | the value of a pair line and its line feed: the value is placed and the loop goes on |
| Document.PairAt | tomload/tomload.cpp:379-380 | a line that does not open with `[` is a pair |
| Document.PairKeys | tomload/tomload.cpp:380-390 | a pair's keys are where its value goes |
| Document.PairEquals | tomload/tomload.cpp:383-390 | past a pair's `=`, its value |
| Document.PairStep | tomload/tomload.cpp:379-391 | a pair line places its value below the current brackets |
| Document.LineStep | tomload/tomload.cpp:362-400 | any header or pair line does what the line-by-line reference says, and the loop goes on after it |
| Document.DocumentRoundTrip | tomload/tomload.cpp:357-401 | a document of headers and pairs written with bare dotted keys is read line by line: headers make their tables and become the brackets, pairs are placed below the most recent header, and the first failing insertion is the error |
| Document.LoadRoundTrip | tomload/tomload.cpp:15-19 | `item_t(view)` on such a document is the table that reference builds from an empty one |
| Document.NotCloseAt | tomload/tomload.cpp:371-372 | keys not followed by `]` |
| Document.UnclosedAt | tomload/tomload.cpp:376-378 | such a header is "expected ']'" |
| Document.HeaderUnclosed | tomload/tomload.cpp:367-378 | a header whose keys are followed by anything but blanks and `]` is "expected ']'" |
| Document.PairFront | tomload/tomload.cpp:364-380 | the front of a pair line: nothing to skip and no `[` |
| Document.NoEqualsAt | tomload/tomload.cpp:385-387 | keys not followed by `=` are "expected '='" |
| Document.NoEqualsValue | tomload/tomload.cpp:382-387 | the same past the keys |
| Document.PairWithoutEquals | tomload/tomload.cpp:379-387 | keys followed by anything but blanks and `=` are "expected '='" |
| Document.NoNewlineAt | tomload/parser.cpp:22-24 | `wait_newline` refuses anything but a blank, a CR, a line feed or a `#` right away |
| Document.JunkAfterItem | tomload/tomload.cpp:394-398 | junk after a value is "expected newline", once the value is placed |
| Document.MissingNewline | tomload/tomload.cpp:390-398 | a pair whose value is followed by anything but blanks, a line break, a comment or the end is "expected newline", once its value is placed |
| Document.CommentText | unittest/test_functions.cpp:520-524 | the pieces of `[aa] #comm` and its line feed |
| Document.CommentWords | unittest/test_functions.cpp:520-524 | the same, word by word |
| Document.CommentLine | tomload/parser.cpp:7-25 | `wait_newline` on blanks, `#comm` and a line feed stops at the line feed |
| Document.CommentDrop | tomload/parser.cpp:15-20 | the comment is dropped up to its line feed |
| Document.OneHeader | tomload/tomload.cpp:318-327 | `[aa]` makes the table aa, empty |
| Document.CommentAfterHeader | tomload/tomload.cpp:357-401 | `[aa] #comm` and a line feed load as a table holding aa, an empty table: tomload/ makes a header's table before any pair |
| Document.HeaderLineBy | tomload/tomload.cpp:367-395 | a header closed by `]` and anything `wait_newline` accepts makes its tables, and the loop goes on |
| TomlR.StartsWith | toml_r.hpp:14-16 | `view.find(x) == 0` holds exactly when x is a prefix of view, the same test as tomload/view_t.cpp:14-16 |
| TomlR.Stripped | toml_r.hpp:37-42 | the `while` loop leaves a suffix that starts with no space, tab, CR or LF |
| TomlR.ItemValue | toml_r.hpp:34-55 | `parse_item` leaves a suffix and never sets `u`; it is a boolean, or the void item with only the blanks consumed |
| TomlR.Word | toml_r.hpp:44-52 | after the blanks, a boolean word or the void item that consumes nothing |
| TomlR.ParseItem | toml_r.hpp:34-55 | the `while` loop and the `if` compute what `parse_item` returns and leaves |
| TomlR.ParseWord | toml_r.hpp:44-52 | the method computes the `if` over the two words |
| TomlR.StartsWithBlank | toml_r.hpp:37-40 | the loop test holds exactly when the view starts with a space, tab, CR or LF |
| TomlR.StrippedDropsBlanks | toml_r.hpp:37-42 | every character the loop drops is a blank |
| TomlR.BoolAgrees | toml_r.hpp:44-52 | where this prototype reads a boolean, tomload/parser.cpp:110-115 reads the same boolean after the blanks and leaves the same rest |
| TomlR.WordAgrees | toml_r.hpp:44-52 | the same after the blanks |
| TomlR.FixedAt | tomload/parser.cpp:110-115 | a fixed word at the front is read by tomload/ as its item, consuming exactly the word |
| TomlR.MainTrue | main.cpp:7-14 | `true` is the boolean true and leaves the view empty |
| TomlR.MainFalse | main.cpp:15-22 | `false` is the boolean false and leaves the view empty |
| TomlR.NoBlankFront | toml_r.hpp:37-42 | with no blank in front the loop does nothing |
| TomlR.WordTrue | toml_r.hpp:44-47 | the `true` branch |
| TomlR.WordFalse | toml_r.hpp:48-51 | the `false` branch |
| PyTree.KindOf | unittest/toml-test/tests2doctest.py:108-118 | a value has one of the six known types exactly when it is not some other Python object; only those get CHECK lines |
| PyTree.FindEntry | unittest/toml-test/tests2doctest.py:114-116 | finds the first entry with the key, or reports that no entry has it |
| PyTree.LookupSnoc | unittest/toml-test/tests2doctest.py:116 | extending a path by one key, as the recursive call does, subscripts the node the shorter path reached |
| PyTree.FindOwnKey | unittest/toml-test/tests2doctest.py:114-116 | in a dict with distinct keys, subscripting by an entry's key finds that entry |
| PyTree.ListElemWellFormed | unittest/toml-test/tests2doctest.py:114-116 | every element of a well-formed list is well formed |
| PyTree.DictElemWellFormed | unittest/toml-test/tests2doctest.py:114-116 | every value of a well-formed dict is well formed |
| CppReading.Prepend | unittest/toml-test/tests2doctest.py:46-47 | prefixing a read value keeps its success and what follows it |
| CppReading.ReadLiteral | unittest/toml-test/tests2doctest.py:40-47 | reading a string expression always consumes at least its closing quote |
| CppReading.UpToNul | unittest/samples/toml2doctest.py:7-13 | the C string of text without NUL is the text itself |
| CppReading.DigitRun | unittest/toml-test/tests2doctest.py:70-71 | the run is all digits and stops at the first non-digit |
| CppReading.ReadKey | unittest/toml-test/tests2doctest.py:76-79 | reading one subscript consumes at least its closing bracket |
| CppReading.ReadPath | unittest/toml-test/tests2doctest.py:76-79 | reading a chain never lengthens the rest |
| CppReading.NameRun | unittest/toml-test/tests2doctest.py:86 | the member name holds no `(` and stops at the first one |
| DoctestGen.Lower | unittest/toml-test/tests2doctest.py:50-51 | lower-casing keeps the length |
| DoctestLiterals.QuoteEnds | unittest/toml-test/tests2doctest.py:46-47 | a closing quote not followed by the NUL splice ends the literal |
| DoctestLiterals.SpliceReads | unittest/toml-test/tests2doctest.py:43 | the NUL splice contributes exactly one NUL character |
| DoctestLiterals.EscapedReads | unittest/toml-test/tests2doctest.py:40-42 | each escape contributes the character it stands for |
| DoctestLiterals.PlainReads | unittest/toml-test/tests2doctest.py:47 | a character with no table entry contributes itself |
| DoctestLiterals.SixShape | unittest/toml-test/tests2doctest.py:40-42 | every escape in the table is a backslash and a letter, and the characters without an entry are neither quote nor backslash |
| DoctestLiterals.NulCharReads | unittest/toml-test/tests2doctest.py:40-47 | each character `c_str` writes reads back as that character, NUL included |
| DoctestLiterals.NulBodyReads | unittest/toml-test/tests2doctest.py:46-47 | the body `c_str` writes, closed by a quote, reads back as the whole string |
| DoctestLiterals.CStrValue | unittest/toml-test/tests2doctest.py:40-47 | the C++ value of `c_str(s)` is s for every string, NUL characters included |
| DoctestLiterals.RawCharReads | unittest/samples/toml2doctest.py:7-13 | a character the earlier `c_str` writes reads back as itself until a raw NUL has cut the literal |
| DoctestLiterals.RawNulReads | unittest/samples/toml2doctest.py:12-13 | a raw NUL ends the literal's C string |
| DoctestLiterals.RawBodyReads | unittest/samples/toml2doctest.py:12-13 | the earlier `c_str` body reads back as the string up to its first NUL |
| DoctestLiterals.CStrRawValue | unittest/samples/toml2doctest.py:7-13 | the C++ value of the earlier `c_str(s)` is s up to its first NUL |
| DoctestLiterals.CStrRawKeeps | toml2doctest.py:5-11 | the earlier `c_str` keeps a string exactly when it has no NUL |
| DoctestLiterals.UpToNulShorter | unittest/samples/toml2doctest.py:12-13 | a string with a NUL loses at least that NUL |
| DoctestLiterals.RawNulTruncates | unittest/samples/toml2doctest.py:7-13 | the string `a`, NUL, `b` comes out as `a` |
| DoctestLiterals.StrTextValue | unittest/toml-test/tests2doctest.py:40-47 | each script's string literal compares equal to the string, or to its part before the first NUL for the two earlier scripts |
| DoctestLiterals.NatTextShape | unittest/toml-test/tests2doctest.py:72-73 | `str(n)` is nonempty decimal digits with no leading zero except `0` itself |
| DoctestLiterals.NatTextValue | unittest/toml-test/tests2doctest.py:72-73 | the digits of `str(n)` have the value n |
| DoctestLiterals.NatTextReads | unittest/toml-test/tests2doctest.py:70-71 | an index subscript reads back as the index |
| DoctestLiterals.IntTextReads | unittest/toml-test/tests2doctest.py:72-73 | an integer value's text reads back as the integer, negative ones included |
| DoctestLiterals.LowerKeeps | unittest/toml-test/tests2doctest.py:50-51 | lower-casing leaves a string without capital letters unchanged |
| DoctestLiterals.CBoolText | unittest/toml-test/tests2doctest.py:50-51 | `c_bool` writes `true` or `false` |
| DoctestLiterals.CBoolReads | unittest/toml-test/tests2doctest.py:50-51 | the boolean literal reads back as the boolean |
| DoctestLiterals.CFloatMatches | unittest/toml-test/tests2doctest.py:54-62 | a double compares equal to `c_float(f)` exactly when it is f, with the two zeros identified |
| DoctestLiterals.PosInfMatches | unittest/toml-test/tests2doctest.py:55-56 | only positive infinity matches the infinity expression |
| DoctestLiterals.NegInfMatches | unittest/toml-test/tests2doctest.py:57-58 | only negative infinity matches the negated infinity expression |
| DoctestLiterals.NanMatches | unittest/toml-test/tests2doctest.py:59-60 | only NaN matches `rhs_nan{}` |
| DoctestLiterals.RootFloatMatches | toml2doctest.py:25-26 | plain `float` formatting matches a double only when the value is finite, and then exactly |
| DoctestLiterals.NotFloatWord | unittest/toml-test/tests2doctest.py:61-62 | the decimal text of a finite float is none of the three special expressions |
| DoctestLiterals.DigitRunOf | unittest/toml-test/tests2doctest.py:70-71 | the digit run of digits before a non-digit is exactly those digits |
| DoctestLiterals.StrKeyReads | unittest/toml-test/tests2doctest.py:70-79 | a string key's subscript reads back as the key for a key the script keeps intact |
| DoctestLiterals.NulKeyReads | unittest/toml-test/tests2doctest.py:70-71 | a key written by tests2doctest.py's `c_str` reads back as the key |
| DoctestLiterals.RawKeyReads | unittest/samples/toml2doctest.py:36-37 | a NUL-free key written by the earlier `c_str` reads back as the key |
| DoctestLiterals.IntKeyReads | unittest/toml-test/tests2doctest.py:70-71 | an index subscript from just after `[` reads back as the index |
| DoctestLiterals.KeyReads | unittest/toml-test/tests2doctest.py:76-79 | one subscript `[..]` reads back as its key |
| DoctestLiterals.ChainReads | unittest/toml-test/tests2doctest.py:76-79 | `chain_keys` reads back as the path it was built from |
| DoctestLiterals.NameRunOf | unittest/toml-test/tests2doctest.py:85-86 | the member name runs up to the `(` that follows it |
| DoctestLiterals.CallReads | unittest/toml-test/tests2doctest.py:82-100 | the text after the chain reads back as the member name and the compared value |
| DoctestLiterals.LineReads | unittest/toml-test/tests2doctest.py:82-100 | a CHECK line reads back as the path, the member name and the value it was built from |
| DoctestWalk.TypeNameTested | unittest/toml-test/tests2doctest.py:65-67 | each `TYPE_CHECK` name calls the C++ type test of that very type |
| DoctestWalk.TypeNamesDistinct | unittest/toml-test/tests2doctest.py:65-67 | two types have the same test name exactly when they are the same type |
| DoctestWalk.GetterNameGot | unittest/toml-test/tests2doctest.py:68-69 | each `TYPE_GET` name calls the C++ getter of that scalar and is no type test |
| DoctestWalk.TestsRenderable | unittest/toml-test/tests2doctest.py:40-43 | tests2doctest.py can spell every tree |
| DoctestWalk.TypeLineHolds | unittest/toml-test/tests2doctest.py:82-86 | a `check_type` line holds of the node its path reaches |
| DoctestWalk.SizeLineHolds | unittest/toml-test/tests2doctest.py:89-92 | a `check_size` line holds of the container its path reaches |
| DoctestWalk.ValLineHolds | unittest/toml-test/tests2doctest.py:95-100 | a `check_val` line holds of the scalar its path reaches |
| DoctestWalk.ValueClaim | unittest/toml-test/tests2doctest.py:95-100 | the getter name and value text of a scalar make a claim that holds of it |
| DoctestWalk.NodeLinesHold | unittest/toml-test/tests2doctest.py:108-118 | the lines printed for a node itself hold |
| DoctestWalk.WalkSound | unittest/toml-test/tests2doctest.py:107-118 | every line the walk prints holds of the tree it was printed from |
| DoctestWalk.ListSound | unittest/toml-test/tests2doctest.py:114-116 | every line printed for the elements of a list holds |
| DoctestWalk.DictSound | unittest/toml-test/tests2doctest.py:114-116 | every line printed for the entries of a dict holds |
| DoctestWalk.TestsWalkSound | unittest/toml-test/tests2doctest.py:107-118 | every CHECK tests2doctest.py prints for any well-formed tree holds of the C++ item built from it |
| DoctestWalk.LineCount | unittest/toml-test/tests2doctest.py:107-118 | the walk prints exactly two lines for each node of a known type |
| DoctestWalk.ListCount | unittest/toml-test/tests2doctest.py:114-116 | a list's elements get two lines per known node |
| DoctestWalk.DictCount | unittest/toml-test/tests2doctest.py:114-116 | a dict's entries get two lines per known node |
| DoctestWalk.WalkComplete | unittest/toml-test/tests2doctest.py:107-118 | every node of a known type that a path reaches gets its type line at that path |
| DoctestWalk.ChildLinesIn | unittest/toml-test/tests2doctest.py:114-116 | a child's lines are among its parent's |
| DoctestWalk.ListLinesHas | unittest/toml-test/tests2doctest.py:114-116 | an element's lines are among its list's |
| DoctestWalk.DictLinesHas | unittest/toml-test/tests2doctest.py:114-116 | an entry's lines are among its dict's |
| DoctestMain.LastSlash | unittest/toml-test/tests2doctest.py:137 | the last separator and no separator after it, or none at all |
| DoctestMain.SplitOn | unittest/toml-test/tests2doctest.py:138 | `str.split(os.sep)` gives at least one part, and no part holds the separator |
| DoctestMain.JoinSplit | unittest/toml-test/tests2doctest.py:138-140 | joining the split parts gives back the string |
| DoctestMain.SplitJoin | unittest/toml-test/tests2doctest.py:138-140 | splitting joined separator-free parts gives back the parts |
| DoctestMain.SplitPlain | unittest/toml-test/tests2doctest.py:138 | a separator-free prefix joins the first part |
| DoctestMain.JoinSnoc | unittest/toml-test/tests2doctest.py:140 | joining one more part appends a separator and the part |
| DoctestMain.PathSplitOf | unittest/toml-test/tests2doctest.py:137 | `os.path.split` of joined parts splits off the last part |
| DoctestMain.LastSlashAt | unittest/toml-test/tests2doctest.py:137 | the last separator is the one before a separator-free tail |
| DoctestMain.SplitAtSlash | unittest/toml-test/tests2doctest.py:137 | splitting at the last separator gives the head and the tail |
| DoctestMain.JoinShape | unittest/toml-test/tests2doctest.py:140 | joined nonempty parts form nonempty text that neither starts nor ends with a separator |
| DoctestMain.TestCaseNameOf | unittest/toml-test/tests2doctest.py:137-141 | the TEST_CASE name is the path's last three components |
| DoctestMain.NoDirName | unittest/toml-test/tests2doctest.py:137-140 | a path with no directory produces a name that starts with a separator |
| DoctestMain.BasenameOf | unittest/samples/toml2doctest.py:70 | `os.path.basename` is the path's last component |
| DoctestMain.PrintCheck | unittest/toml-test/tests2doctest.py:121-154 | raises exactly when the load disagrees with the path's `invalid`, and prints nothing then; the RuntimeError for an invalid fixture that loads, the decode error for a valid one that does not |
| DoctestMain.PrintCheckShape | unittest/toml-test/tests2doctest.py:137-154 | a TEST_CASE under the fixture's name closed by `}` and a blank line: one CHECK_THROWS_AS for an invalid fixture, the `item_t` line and two CHECKs per node for a valid one |
| DoctestMain.PrintCheckSound | unittest/toml-test/tests2doctest.py:147-151 | every CHECK printed for a valid fixture holds of its tree |
| DoctestMain.Checks | unittest/toml-test/tests2doctest.py:161-166 | the loop runs to the end exactly when every fixture it does not skip loads as its path says |
| DoctestMain.TestsMain | unittest/toml-test/tests2doctest.py:157-166 | with an argument the header comes first; the run ends normally exactly when every fixture but the two skipped ones loads as its path says |
| DoctestMain.SameFixtures | unittest/toml-test/tests2doctest.py:161 | sorting does not change whether every kept fixture loads as expected |
| DoctestMain.Insert | unittest/toml-test/tests2doctest.py:161 | inserting into a sorted list gives a sorted permutation of the list and the fixture |
| DoctestMain.InsertFront | unittest/toml-test/tests2doctest.py:161 | a fixture no greater than the head of a sorted list can go in front |
| DoctestMain.InsertBehind | unittest/toml-test/tests2doctest.py:161 | the head stays in front of a sorted insertion into the tail |
| DoctestMain.SortByPath | unittest/toml-test/tests2doctest.py:161 | `sorted` gives the fixtures in path order as a permutation |
| DoctestMain.StrLeTotal | unittest/toml-test/tests2doctest.py:161 | Python's string order is total |
| DoctestMain.StrLeTrans | unittest/toml-test/tests2doctest.py:161 | Python's string order is transitive |
| DoctestMain.SamplesMain | unittest/samples/toml2doctest.py:92-98 | raises exactly when the argument's file does not decode; `print_load`'s four lines are printed first even then; a decoded file adds two lines per node and `}` |
| DoctestMain.SamplesSound | unittest/samples/toml2doctest.py:78-89 | every CHECK the samples script prints for a tree it can spell holds of that tree |
| DoctestMain.RootMain | toml2doctest.py:70-74 | raises exactly when the argument's file does not decode, and otherwise prints only the CHECK lines, two per node |

## Left out

- StringView14.StringView.RemovePrefix: requires `n <= size`. tomload/string_view14.hpp:409-412 does not check this. For a larger n, `data_` moves past the end and `size_` wraps around as a `size_t`. The model does not represent that state.
- StringView14.StringView.RemoveSuffix: requires `n <= size`. tomload/string_view14.hpp:415-417 does not check this, and `size_` wraps around as a `size_t` for a larger n. That wrapped state is not modelled.
- StringView14.StringView.Copy: requires the destination to hold the characters copied. The C++ `copy` writes through a raw `char*`, and writing past a too-small buffer is undefined behaviour.
- StringView14.Rank: characters are Dafny `char`. A byte from 0x80 to 0xFF is ranked as the platform's signed `char` would rank it. A platform with unsigned `char` would order those bytes differently.
- Bytes are Dafny `char` values below 256 throughout, in both the C++ and the Python model. The text the scripts print is not encoded as UTF-8.
- Parser.ParseArray: requires a nonempty view, since `parse_array` is only called at a `[`. The same holds for LegacyParser.ParseArray, TomloadHpp.ParseArray and TomloadHpp.ArrayItem.
- DetailString.ParseString: requires a length of at least 2 that fits the view. This is the `@pre` of the C++ function; the length comes from `get_string_length`. The same holds for the other `parse_*` partners of a `get_*_length`, in tomload/ and in the earlier files.
- DetailNumber.ParseRadixValue: requires a length of at least 2 that fits the view, which `get_radix_length` guarantees. DetailNumber.ParseInteger likewise requires a length that fits the view.
- Floating point: a float payload is the tag `FloatTag`, one of positive infinity, negative infinity, NaN with its sign, or a finite value given by its text. `parse_float` and `get_float_length` of tomload/detail_number.cpp are not part of this model. Neither are the numeric `static_cast`s inside `get<PARAM>`: Items.Get only states which tags are compatible.
- DoctestLiterals.CFloatMatches and DoctestLiterals.RootFloatMatches: a finite double is its decimal text. Any two texts of zero stand for the same value, because `-0.0 == 0.0` in C++. Rounding when C++ reads the decimal text is not modelled.
- `std::stoll` is replaced by a specified conversion, DetailNumber.StoLL. It skips leading blanks, reads a sign and the longest run of digits, and reports an invalid argument or a value outside `long long`. `std::stoul` of checked hex digits is UnicodeEscape.HexValue.
- Tree: `merge`, `insert_empty_table`, `insert_new_table` of tomload/tomload.cpp and `insert_table` of tomload.hpp walk `p_item` or `mptr` down nested maps and insert in place. The model gives them as functions from the old tree to the new one. Aliasing through `mptr` is not represented.
- `shared_ptr` sharing between copied `item_t` values is not modelled, because the parser never observes it. Tables are Dafny maps, and the key order of `std::map` is not represented.
- The constructors of `item_t` are the datatype's constructors (Items.ConstructorsRoundTrip). `item_t(view)` is Document.Load.
- TomloadHpp.Parse and LegacyDetailString.ParseKeys: the C++ loops have `;` branches that make no progress, so they run forever on some inputs. The model returns an explicit `Diverges` or `Spins` outcome there instead of a termination claim. TomloadHpp.DivergesIsStuck and LegacyDetailString.WaitKeySpins prove that such a state is a fixed point of the loop body.
- TomlR.ItemValue: the `v` vector field of the prototype `item_t` is never set by `parse_item`, so the model leaves it out.
- The `const_reverse_iterator`, `operator<<` and the `_sv` literal of tomload/string_view14.hpp are not part of this model; they are iterator arithmetic and stream code.
- The declaration-only headers have no logic and are not part of this model: tomload/detail_string.h, tomload/detail_number.h, tomload/parser.h, parser.h, tomload/view_t.h and integers.hpp.
- The test drivers and generated suites under unittest/, samples.cpp and main.cpp are not part of this model. They serve only as worked examples.
- Python I/O becomes inputs and outputs:
  - `open`, `tomllib.load`, `glob.glob` and `sys.argv` are parameters;
  - a decode failure is the `DecodeError` case of the load result;
  - `print` appends to the output sequence of a `Run`.
- `os.sep` is `/`.
- PyTree.PyValue: a Python dict is a sequence of entries in insertion order, with distinct keys. Values of other types, such as dates, are a single `PyOther` leaf.
- DoctestMain.SortByPath: `sorted` is given as insertion sort under Python's string order. Its result is specified as sorted and a permutation. Python's own sort is stable, and any two fixtures returned by `glob` have distinct paths, so the result is the same.
- The C++ side of a CHECK line (CppReading) covers only the parts of C++ that the emitted text uses: string literals, `std::string(1, '\0')` splices, decimal literals, `std::numeric_limits<double>::infinity()`, `rhs_nan{}` and `item_t` member calls.

## Findings

| source | as written | input that shows it | evidently intended | confidence | as-written member | corrected member |
|---|---|---|---|---|---|---|
| tomload.hpp:257-263 | `get_bare_length` looks for the first non-key character from index 2, so a one-letter key takes the character after it | `a = true` and a line feed: the key is `a ` with the blank | scan from index 1 as tomload/detail_string.cpp does, giving the key `a` | not executed; high | TomloadHpp.OneLetterKeyTakesBlank | DetailString.GetBareLength |
| tomload.hpp:257-263 | in a header the same scan takes the `]` into a one-letter key, and `bracket_wait_string` then has no branch for what follows | `[a]` and a line feed: the parse loop never ends | the header `[a]` makes the table a | not executed; high | TomloadHpp.OneLetterHeaderSpins | Document.LoadRoundTrip |
| tomload.hpp:579-580 | `pair_wait_dot` has no branch for `.`, so a dotted key makes no progress | `aa.bb=true` and a line feed: the parse loop never ends | dotted keys are read as in tomload/parser.cpp | not executed; high | TomloadHpp.DottedKeySpins | Parser.DottedKeysRoundTrip |
| tomload.hpp:494-498 | `insert_table` replaces every table on the bracket path with a fresh empty map | the tree `{a: {x: true}}` and the pair `y = false` under `[a]`: x is lost | keep existing tables and add the new key, as `insert_new_table` of tomload/tomload.cpp does | not executed; high | Tree.LegacyDropsSibling | Tree.InsertNewTable |
| detail_string.cpp:228-230 | after a dot, `parse_keys` has an empty branch for a character that starts no key | `a.=`: the loop never ends | throw "expected string" as tomload/parser.cpp does | not executed; high | LegacyDetailString.TrailingDotSpins | Parser.KeyExpectedString |
| unittest/samples/toml2doctest.py:7-13 | `C_STR` has no entry for NUL, so a NUL is copied raw into the C++ literal, where the literal's C string ends | the string `a`, NUL, `b`: the generated CHECK compares with `"a"` | write NUL as a splice, as unittest/toml-test/tests2doctest.py:43 does | not executed; medium | DoctestLiterals.RawNulTruncates | DoctestLiterals.CStrValue |
