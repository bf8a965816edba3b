# Trampolined factorial, book spliterator and list collectors

This project models the two pieces of original logic in a set of JUnit
demonstrations of Java's functional APIs, and proves what they promise.

- `trampoline.dfy` (module `Trampoline`, from `FunctionalApiTest.java`): the
  `Trampoline` interface with its `done` and `more` steps, `jump`, `complete`,
  the `result` driver that iterates `jump` until a complete step, and the two
  accumulator-passing factorials, `factorialStackSafe` (trampolined) and
  `factorialStackUnsafe` (direct recursion). A deferred step carries the two
  arguments of the postponed `factorialStackSafe(n, acc)` call. The Java code
  uses a closure there, and that closure is the only one the code ever builds.
  `BigInteger` is Dafny's unbounded `int`.
- `books.dfy` (module `Books`, from `StreamsTest.java`): `Book`, which compares
  by author only, and `BookSpliterator`. The spliterator reads name, author,
  genre and score from a line spliterator, four lines per book. It is a class
  whose fields the reading updates in place. The line spliterator it wraps is a
  cursor over a fixed sequence of lines.
- `collectors.dfy` (module `Collectors`, from `StreamsTest.java`): the
  procedural filter loop and the stream filter it must agree with, and the
  hand-written `toList` and `toSortedList` collectors. The collectors use an
  `ArrayList` container that `add`, `addAll` and `Collections.sort` change in
  place.

## Model

| member | source | states |
|---|---|---|
| `Trampoline.StepsToComplete` | src/test/java/io/pusteblume/FunctionalApiTest.java:99-102 | the element `Stream.iterate(s, jump).filter(complete).findFirst()` selects: the step at this position is complete and no earlier one is |
| `Trampoline.Result` | src/test/java/io/pusteblume/FunctionalApiTest.java:94-105 | the driver loop returns the value of the first complete step of the chain, a done step's own value, and performs exactly one jump per deferred step; it never reaches the `orElseThrow` failure |
| `Trampoline.JumpPreservesResult` | src/test/java/io/pusteblume/FunctionalApiTest.java:66-92 | a done step is complete, jumps to itself and yields its value; a deferred step is not complete and yields what the step it jumps to yields |
| `Trampoline.StepsFromStart` | src/test/java/io/pusteblume/FunctionalApiTest.java:55-58 | from `factorialStackSafe(n, acc)` with n >= 1 the chain completes after exactly n - 1 jumps |
| `Trampoline.NonPositiveNeverCompletes` | src/test/java/io/pusteblume/FunctionalApiTest.java:55-58 | a deferred call with n <= 0 never reaches a complete step, whatever the number of jumps |
| `Trampoline.NonPositiveStartNeverCompletes` | src/test/java/io/pusteblume/FunctionalApiTest.java:55-58 | `factorialStackSafe(n, acc)` with n <= 0 starts a chain that never completes |
| `Trampoline.TerminatesExactly` | src/test/java/io/pusteblume/FunctionalApiTest.java:55-58 | a chain reaches a complete step if and only if it is a done step or a postponed call with n >= 1 |
| `Trampoline.SafeFactorial` | src/test/java/io/pusteblume/FunctionalApiTest.java:55-58 | for n >= 1 the trampolined factorial yields acc * n! |
| `Trampoline.SafeFactorialOfThree` | src/test/java/io/pusteblume/FunctionalApiTest.java:43 | the value the test asserts: 3! from accumulator 1 is 6 |
| `Trampoline.UnsafeIsAlwaysOne` | src/test/java/io/pusteblume/FunctionalApiTest.java:49-52 | every terminating call of the stack-unsafe variant, as written, returns 1 |
| `Trampoline.UnsafeDiffersFromSafe` | src/test/java/io/pusteblume/FunctionalApiTest.java:49-58 | the two variants agree exactly when acc * n! is 1, so with acc = 1 they differ for every n >= 2 |
| `Trampoline.FactorialDirect` | src/test/java/io/pusteblume/FunctionalApiTest.java:49-52 | the direct recursion with the accumulator returned at the base case computes acc * n! |
| `Trampoline.DirectAgreesWithTrampoline` | src/test/java/io/pusteblume/FunctionalApiTest.java:49-58 | the trampoline computes what the corrected direct recursion computes |
| `Books.CompareStrings` | src/test/java/io/pusteblume/StreamsTest.java:240 | `String.compareTo` is zero exactly for equal strings |
| `Books.CompareAntisymmetric` | src/test/java/io/pusteblume/StreamsTest.java:240 | swapping the strings negates the comparison |
| `Books.CompareTransitive` | src/test/java/io/pusteblume/StreamsTest.java:240 | the comparison is transitive, so books are totally ordered by author |
| `Books.CompareByAuthorOnly` | src/test/java/io/pusteblume/StreamsTest.java:238-241 | `Book.compareTo` depends on the two authors only, is zero exactly when they are equal whatever the other fields, and is antisymmetric |
| `Books.BooksCount` | src/test/java/io/pusteblume/StreamsTest.java:188-197 | k lines give floor(k / 4) books |
| `Books.BooksInOrder` | src/test/java/io/pusteblume/StreamsTest.java:189-193 | the i-th book has name, author, genre and score from lines 4i, 4i + 1, 4i + 2 and 4i + 3 |
| `Books.BooksOfLines` | src/test/java/io/pusteblume/StreamsTest.java:189-193 | books written as four-line records read back as the same books |
| `Books.LinesOfBooks` | src/test/java/io/pusteblume/StreamsTest.java:189-193 | books read from lines and written back give the lines up to the last complete record |
| `Books.LineSpliterator.TryAdvance` | src/test/java/io/pusteblume/StreamsTest.java:189-192 | the base spliterator hands out the next line and advances, or reports that none is left and changes nothing |
| `Books.BookSpliterator.constructor` | src/test/java/io/pusteblume/StreamsTest.java:184-186 | wraps the base spliterator; the four fields start out null |
| `Books.BookSpliterator.TryAdvance` | src/test/java/io/pusteblume/StreamsTest.java:188-197 | returns true exactly when four lines remain, then consumes four and emits one book made of them; otherwise emits nothing, but consumes the lines it read and overwrites their fields |
| `Books.BookSpliterator.ForEachRemaining` | src/test/java/io/pusteblume/StreamsTest.java:173-174 | driving `tryAdvance` until it fails emits the books of the remaining lines in order and consumes every line |
| `Books.BookSpliterator.TrySplit` | src/test/java/io/pusteblume/StreamsTest.java:200-202 | the spliterator never splits |
| `Books.BookSpliterator.EstimateSize` | src/test/java/io/pusteblume/StreamsTest.java:205-207 | the base estimate divided by four, which for a sized base is exactly the number of books still to come |
| `Books.BookSpliterator.Characteristics` | src/test/java/io/pusteblume/StreamsTest.java:210-212 | the base's characteristics, passed through |
| `Collectors.ContainsAt` | src/test/java/io/pusteblume/StreamsTest.java:22 | `String.contains` holds exactly when the substring occurs at some position |
| `Collectors.FilterKeepsExactly` | src/test/java/io/pusteblume/StreamsTest.java:35-38 | the stream filter keeps every element satisfying the predicate, as often as it occurs, drops all others, and keeps the original order |
| `Collectors.FilterProcedural` | src/test/java/io/pusteblume/StreamsTest.java:26-31 | the procedural loop computes exactly the stream filter's list |
| `Collectors.FilterExample` | src/test/java/io/pusteblume/StreamsTest.java:21-40 | of the test's two titles only "gone with the wind" contains "on" |
| `Collectors.Insert` | src/test/java/io/pusteblume/StreamsTest.java:324 | inserting keeps every element and adds the new one |
| `Collectors.InsertSorted` | src/test/java/io/pusteblume/StreamsTest.java:324 | inserting into an ascending list keeps it ascending |
| `Collectors.SortedSeq` | src/test/java/io/pusteblume/StreamsTest.java:324 | `Collections.sort` leaves an ascending permutation of the list |
| `Collectors.SortedUnique` | src/test/java/io/pusteblume/StreamsTest.java:324 | two ascending lists with the same elements are equal |
| `Collectors.SortedSeqIsTheSortedPermutation` | src/test/java/io/pusteblume/StreamsTest.java:324 | a list is the sorted form of the input if and only if it is ascending and has the input's elements |
| `Collectors.SortedIgnoresOrder` | src/test/java/io/pusteblume/StreamsTest.java:317-326 | the sorted result does not depend on encounter order, as the UNORDERED characteristic claims |
| `Collectors.IntList.constructor` | src/test/java/io/pusteblume/StreamsTest.java:307 | the supplier gives an empty list |
| `Collectors.IntList.Add` | src/test/java/io/pusteblume/StreamsTest.java:308 | the accumulator appends one element |
| `Collectors.IntList.AddAll` | src/test/java/io/pusteblume/StreamsTest.java:310 | `addAll` appends the other list's elements |
| `Collectors.IntList.Sort` | src/test/java/io/pusteblume/StreamsTest.java:324 | the finisher sorts the container in place |
| `Collectors.Combine` | src/test/java/io/pusteblume/StreamsTest.java:309-312 | the combiner appends the second container to the first and returns the first |
| `Collectors.Accumulate` | src/test/java/io/pusteblume/StreamsTest.java:306-308 | a fresh container with every element accumulated in encounter order |
| `Collectors.CollectToList` | src/test/java/io/pusteblume/StreamsTest.java:305-315 | `toList` returns the input in its original order |
| `Collectors.CollectToSortedList` | src/test/java/io/pusteblume/StreamsTest.java:317-328 | `toSortedList` returns the input's elements in ascending order |
| `Collectors.CollectSortedInParts` | src/test/java/io/pusteblume/StreamsTest.java:317-326 | collecting two parts, combining and finishing gives the sorted whole, in either order of the parts |
| `Collectors.CollectExamples` | src/test/java/io/pusteblume/StreamsTest.java:328 | [4, 2, 3] sorts to [2, 3, 4] |

## Left out

- Stack depth: `factorialStackUnsafe` overflowing the stack at n = 5000 (FunctionalApiTest.java:39-41) cannot be expressed; only the values are modelled.
- Trampolines over arbitrary closures: `more` accepts any deferred computation, but only the factorial chain is modelled, with the postponed call's arguments in place of the closure.
- Trampoline.Result: requires that the chain terminates (a done step or n >= 1), because a Dafny method must terminate while the source loops forever otherwise; `NonPositiveNeverCompletes` proves that those other chains never complete.
- Trampoline.FactorialUnsafe: defined only for n >= 1 for the same reason; below that the source recurses until the stack overflows.
- Files.lines and resource lookup (StreamsTest.java:170-174, 246-249): I/O. The base spliterator is a cursor over a given sequence of lines.
- Books.BookSpliterator.EstimateSize: states the exact number of books only for a sized base whose estimate is the number of lines left; the spliterator of `Files.lines` gives its own estimate, and the model then only says it is divided by four.
- The score: `Double.parseDouble` and its `NumberFormatException` for a malformed line are floating point and are not modelled; the score is kept as the text of its line.
- Books.CompareStrings: compares Dafny characters (Unicode scalar values), not Java's UTF-16 code units; the two differ only for characters outside the Basic Multilingual Plane.
- `Book.toString`, `System.out.println` and all printing: I/O.
- Parallel streams, `ForkJoinPool` and thread creation: concurrency. The combiner is modelled, and `CollectSortedInParts` shows what a split collection computes, but no parallel scheduling is.
- Stream laziness (`peek`), single-use streams and the library collectors (`groupingBy`, `partitioningBy`, `toMap`, `joining`, `summingDouble`, `maxBy`): behaviour of the Java standard library, not of this code.
- The other test classes (Optional, numeric streams, method references, design patterns, functional interfaces): library demonstrations with no original logic.

## Findings

| source | as written | input that shows it | evidently intended | confidence | as-written member | corrected member |
|---|---|---|---|---|---|---|
| src/test/java/io/pusteblume/FunctionalApiTest.java:49-52 | the base case of `factorialStackUnsafe` returns `ONE` and drops the accumulator | n = 3, acc = 1 returns 1, while the trampolined variant returns 6 | return `acc`, so that the call computes acc * n! like the trampolined variant | not executed; medium (the test only checks that the call overflows the stack) | `Trampoline.UnsafeDiffersFromSafe` | `Trampoline.FactorialDirect` |
