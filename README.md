# Vector: a fixed-length numeric vector, modelled in Dafny

The model covers the `Vector` class of `Vector.cpp`. A `Vector` owns a heap buffer of doubles, and its state is the length `rows_` and the buffer `data`. It supports:

- three constructors (fill, zero-fill, initializer list);
- copy and move construction and assignment, and `swap`;
- `==` and `!=`;
- element-wise `+=`, `-=`, `*=` and their non-mutating forms `+`, `-`, `*`;
- `dot`, `size()` and `begin()`/`end()`;
- a text writer `operator<<` and a text reader `operator>>`.

The project has three modules:

- `Elementwise` (`elementwise.dfy`) holds the arithmetic on plain sequences. `ElementWise(op, a, b)` applies one of the three operators index by index. `Accumulate` is the left-to-right fold that `dot` computes with `std::accumulate`. `InnerProduct` is the sum of `a[i] * b[i]`, an independent reference definition, and lemmas connect the two.
- `TextFormat` (`text_format.dfy`) holds the text format, with the formatting and parsing of single numbers abstracted away. `Render` is what the writer emits: numbers, with one separator between consecutive numbers. The reader consumes a sequence of scan results. Each scan result is one `stream >> value` extraction: either a parsed number, flagged with whether the next character (`peek()`) is `'\n'`, or a failed extraction. The end of the sequence stands for the end of the stream. `Collect` is what one read collects.
- `Vectors` (`vector.dfy`) holds the class `Vector`. It has the fields `rows: nat` and `data: array<real>`, and the invariant `Valid()`, which says `data.Length == rows`. `Contents()` is the abstract value `data[..]`. The constructors, the assignments, `swap`, the compound operators and the reader update the fields and the buffer in place, with loops where the source has them, and their `ensures` tie the new state to the old one. The comparisons, the non-mutating operators, `dot` and the writer are methods that change no existing state and state their results; `size()`, `begin()` and `end()` are functions. `Swap` models the friend `swap`. `DemoArithmetic` and `DemoText` are clients in the manner of `main.cpp`. They show what callers can derive from the contracts alone, for example `[1,2,3] + [4,5,6] == [5,7,9]` and `dot == 32`.

Notes on the modelling:

- A vector with no storage (`data == nullptr` in the source) is a vector whose buffer has length 0. Moved-from vectors get a fresh empty buffer.
- Elements are `real`. Sizes are `nat`, since `size_t` cannot overflow at these lengths.
- The length-equality `assert` of the binary operations and of `dot` is a `requires` clause.
- The three compound operators share one loop, `ApplyInPlace`. Each operator selects one case of `Op` for it.
- The loop of `operator>>` that fills `temp` is the method `ReadValues`. `Read` is the rest of the operator. A thrown `std::runtime_error` is the result `ok == false`. `Read` also returns the unread rest of the input and the stream's failed state. After a successful read that stopped at a bad token or at the end of input, the stream is left failed, as in the source.
- The writer appends pieces to an output sequence that stands for the stream.
- On a failed read, the code throws at `Vector.cpp:201`, before the `delete[]` at `Vector.cpp:204`. The target therefore keeps its prior length and buffer, and `Read` states exactly that.
- The newline flag means "the very next character is `'\n'`", because that is what `peek()` tests. A value followed by spaces and then a newline does not stop the read. The read then goes on into the next line: the following `>>` skips the whitespace, the newline included.

## Model

| member | source | states |
|---|---|---|
| `Vectors.Vector.Filled` | Vector.cpp:7-16 | the new vector has `rows` elements, every one equal to `initValue`, in a fresh buffer; `rows == 0` gives the empty vector |
| `Vectors.Vector.Zero` | Vector.cpp:19-22 | the new vector has `rows` elements, every one `0.0`, in a fresh buffer |
| `Vectors.Vector.FromList` | Vector.cpp:25-35 | the length is the list's length and the elements are the list's, in order |
| `Vectors.Vector.Copy` | Vector.cpp:44-53 | the copy has the source's length and elements, in a fresh buffer, so the two vectors share no storage |
| `Vectors.Vector.Move` | Vector.cpp:57-62 | the new vector takes over the source's buffer itself (no copy), so it has the source's former length and elements; the source is left with length 0 |
| `Vectors.Vector.AssignCopy` | Vector.cpp:66-81 | afterwards the target equals the source's former value, in a fresh buffer when they are distinct objects; the source is unchanged; self-assignment keeps the same buffer and contents |
| `Vectors.Vector.AssignMove` | Vector.cpp:85-96 | for distinct objects, the target takes over the source's buffer and length and the source becomes empty; self-move changes nothing |
| `Vectors.Swap` | Vector.cpp:99-103 | the two vectors exchange their lengths, their buffers and hence their contents |
| `Vectors.Vector.Equals` | Vector.cpp:106-117 | true exactly when the lengths are equal and the elements agree at every index, that is, when the contents are equal |
| `Vectors.Vector.NotEquals` | Vector.cpp:120-122 | true exactly when the contents differ, the negation of `==` |
| `Vectors.Vector.ApplyInPlace` | Vector.cpp:125-173 | with equal lengths, element i becomes `old a[i] op old b[i]` for every i; the length and the buffer stay; `b` is unchanged unless it shares this buffer, so `a op= a` works on the old values |
| `Vectors.Vector.AddAssign` | Vector.cpp:125-132 | `+=`: with equal lengths, the contents become the element-wise sum of the old contents and `b`; `b` is unchanged unless `b` is this vector (shares its buffer) |
| `Vectors.Vector.SubtractAssign` | Vector.cpp:142-149 | `-=`: with equal lengths, the contents become the element-wise difference of the old operands; `b` is unchanged unless `b` is this vector (shares its buffer) |
| `Vectors.Vector.MultiplyAssign` | Vector.cpp:166-173 | `*=`: with equal lengths, the contents become the element-wise product of the old operands; `b` is unchanged unless `b` is this vector (shares its buffer) |
| `Vectors.Vector.Add` | Vector.cpp:135-139 | `+` returns a new vector in a fresh buffer holding the element-wise sum; both operands are unchanged |
| `Vectors.Vector.Subtract` | Vector.cpp:152-156 | `-` returns a new vector holding the element-wise difference; both operands are unchanged |
| `Vectors.Vector.Multiply` | Vector.cpp:159-163 | `*` returns a new vector holding the element-wise product; both operands are unchanged |
| `Vectors.Vector.Dot` | Vector.cpp:237-246 | with equal lengths, returns the left-to-right fold of `sum + a[i] * b[i]` from `0.0`, and that this equals the sum of `a[i] * b[i]`; neither operand changes |
| `Vectors.Vector.Size` | Vector.cpp:233-235 | `size()` is the number of elements |
| `Vectors.Vector.Begin` | Vector.cpp:216-218 | `begin()` points at offset 0 of the vector's own buffer; what the range from it promises is stated by `BeginToEnd` |
| `Vectors.Vector.End` | Vector.cpp:220-222 | `end()` points into the same buffer, `size()` positions after `begin()`; `BeginToEnd` proves the range between them is the contents |
| `Vectors.Vector.BeginToEnd` | Vector.cpp:216-230 | the range from `begin()` to `end()` holds `size()` elements and is exactly the contents, in index order |
| `Vectors.Vector.Traverse` | Vector.cpp:216-230 | stepping from `begin()` to `end()` visits every element once, in index order |
| `Vectors.Vector.Write` | Vector.cpp:177-185 | `operator<<` appends to the output exactly the rendering of the contents, and nothing else |
| `TextFormat.Render` | Vector.cpp:177-185 | the rendering of n elements has `2n - 1` pieces (none for n = 0): element k at position 2k and a separator at every odd position, so no separator leads or trails and exactly one lies between neighbours |
| `TextFormat.NumbersOfRender` | Vector.cpp:178-179 | the numbers written are exactly the elements, in index order |
| `Vectors.ReadValues` | Vector.cpp:190-198 | the collecting loop returns exactly the values and the stream state that `Collect` defines |
| `TextFormat.Collect` | Vector.cpp:193-198 | defines what one read collects: values up to the first failed extraction or through the first value followed by `'\n'`, never more values than scans; its full characterisation is `CollectCharacterized` |
| `TextFormat.CollectCharacterized` | Vector.cpp:193-198 | the collected values are the leading successful extractions in order; only the last may be followed by `'\n'`; a read that stops without that newline (always the case when nothing was collected) leaves the stream failed, at the end of the input or at a failed extraction |
| `Vectors.Vector.Read` | Vector.cpp:189-213 | `operator>>` fails exactly when no value was collected, and then leaves the length, buffer and contents unchanged; otherwise the length becomes the number of values and the contents become the values, in order, in a fresh buffer; the unread input and the stream state are those of `Collect` |
| `Elementwise.ElementWise` | Vector.cpp:128-130 | the result has the operands' length and holds `a[i] op b[i]` at every index i |
| `Elementwise.Accumulate` | Vector.cpp:241-245 | the `std::accumulate` fold `sum + a[i] * b[i]`, left to right; what it computes is stated by `AccumulateIsInnerProduct` |
| `Elementwise.AccumulateIsInnerProduct` | Vector.cpp:240-245 | the left fold from any start value `s` equals `s` plus the sum of `a[i] * b[i]` |
| `Elementwise.InnerProductCommutes` | Vector.cpp:237-246 | `a.dot(b) == b.dot(a)` |
| `Elementwise.InnerProductDistributes` | Vector.cpp:135-139 | `(a + c).dot(b) == a.dot(b) + c.dot(b)` |
| `Elementwise.InnerProductIsTotalOfProduct` | Vector.cpp:159-163 | `a.dot(b)` is the sum of the elements of `a * b` |
| `Elementwise.SubtractUndoesAdd` | Vector.cpp:142-149 | `-=` with `b` undoes `+=` with `b`: `(a + b) - b == a` |
| `Elementwise.ElementWiseCommutes` | Vector.cpp:125-173 | `a + b == b + a` and `a * b == b * a` |

## Left out

- IEEE-754 behaviour: elements are mathematical reals. Rounding, NaN and infinities are not modelled, and neither is the order-dependence of `dot`'s fold. Elementwise.AccumulateIsInnerProduct, Elementwise.InnerProductDistributes, Elementwise.InnerProductIsTotalOfProduct and Elementwise.SubtractUndoesAdd hold for reals and not in general for doubles, since they regroup sums or cancel a rounded addition. Elementwise.InnerProductCommutes and Elementwise.ElementWiseCommutes rely only on commutativity of `+` and `*`, which IEEE-754 arithmetic has too.
- The decimal formatting of a double by `outputStream << value` and the parsing of a token by `inputStream >> value`: these are the abstract `Number` pieces and `Scan` results. For that reason the write-then-read round trip is not claimed.
- Vectors.Vector.Read: the characters of the stream are not modelled, only the outcomes of the extractions and of `peek()`. The flag in each `Scan` stands for the `peek()` test.
- The destructor and raw `new[]`/`delete[]`: Dafny's memory is managed. "No storage" is a buffer of length 0, so double release cannot be stated.
- The `assert` that aborts on mismatched lengths: it is a `requires` clause, so a mismatched call does not verify rather than aborting.
- The references returned for chaining (`return *this` in the compound operators and the assignments): the methods return nothing.
- Pointer arithmetic in `begin()`/`end()`, and writing elements through the pointer that `begin()` returns: positions are a buffer with an offset. The const and non-const overloads are one function each. Traversal is read-only.
- `main.cpp`: a console demonstration that prints through `std::cout`. It is not part of this model beyond the two client methods.
- `Vector.h`: it is not part of this model. The class layout follows `Vector.cpp`.
