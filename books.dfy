/**
 The book records of StreamsTest: `Book`, ordered by author, and
 `BookSpliterator`, which turns a stream of lines into a stream of books by
 reading them four at a time (name, author, genre, score).
 */
module Books {

  datatype Option<T> = None | Some(value: T)

  /** A book.  The score is kept as the text of its line. */
  datatype Book = Book(author: string, genre: string, name: string, score: string)
  {
    /** `compareTo`: books are ordered by their authors alone. */
    function CompareTo(other: Book): int
    {
      CompareStrings(author, other.author)
    }
  }

  /** `String.compareTo`: the difference of the first pair of characters that
      differ, or else the difference of the lengths.  It is zero exactly for
      equal strings. */
  function CompareStrings(a: string, b: string): (r: int)
    ensures r == 0 <==> a == b
  {
    if |a| == 0 || |b| == 0 then |a| - |b|
    else if a[0] != b[0] then a[0] as int - b[0] as int
    else
      var r := CompareStrings(a[1..], b[1..]);
      assert a == [a[0]] + a[1..] && b == [b[0]] + b[1..];
      r
  }

  /** Swapping the operands negates the comparison. */
  lemma {:induction false} CompareAntisymmetric(a: string, b: string)
    ensures CompareStrings(a, b) == -CompareStrings(b, a)
  {
    if |a| > 0 && |b| > 0 && a[0] == b[0] {
      CompareAntisymmetric(a[1..], b[1..]);
    }
  }

  /** The comparison is transitive, so it orders strings totally. */
  lemma {:induction false} CompareTransitive(a: string, b: string, c: string)
    requires CompareStrings(a, b) < 0 && CompareStrings(b, c) < 0
    ensures CompareStrings(a, c) < 0
  {
    if |a| > 0 && |b| > 0 && |c| > 0 && a[0] == b[0] && b[0] == c[0] {
      CompareTransitive(a[1..], b[1..], c[1..]);
    }
  }

  /** `Book.compareTo` looks at the authors only: its sign and value do not
      depend on name, genre or score, and it is zero exactly when the authors
      are equal, even for books that differ otherwise. */
  lemma CompareByAuthorOnly(a: Book, b: Book, a': Book, b': Book)
    requires a.author == a'.author && b.author == b'.author
    ensures a.CompareTo(b) == a'.CompareTo(b')
    ensures a.CompareTo(b) == 0 <==> a.author == b.author
    ensures a.CompareTo(b) == -b.CompareTo(a)
  {
    CompareAntisymmetric(a.author, b.author);
  }

  /** The four lines that describe a book in the input: name, author, genre, score. */
  function Record(b: Book): (lines: seq<string>)
    ensures |lines| == 4
  {
    [b.name, b.author, b.genre, b.score]
  }

  /** The input lines for a list of books. */
  function Lines(books: seq<Book>): (lines: seq<string>)
  {
    if books == [] then [] else Record(books[0]) + Lines(books[1..])
  }

  /** The books that the four-line records of `lines` describe, in input
      order; a trailing record of fewer than four lines yields no book. */
  function Books(lines: seq<string>): seq<Book>
  {
    if |lines| < 4 then []
    else [Book(lines[1], lines[2], lines[0], lines[3])] + Books(lines[4..])
  }

  /** k lines give floor(k / 4) books. */
  lemma {:induction false} BooksCount(lines: seq<string>)
    ensures |Books(lines)| == |lines| / 4
  {
    if |lines| >= 4 {
      BooksCount(lines[4..]);
    }
  }

  /** The i-th book is made of lines 4i to 4i + 3, in that order. */
  lemma {:induction false} BooksInOrder(lines: seq<string>, i: nat)
    requires i < |lines| / 4
    ensures |Books(lines)| == |lines| / 4
    ensures Books(lines)[i] == Book(lines[4 * i + 1], lines[4 * i + 2], lines[4 * i], lines[4 * i + 3])
  {
    BooksCount(lines);
    if i > 0 {
      BooksInOrder(lines[4..], i - 1);
    }
  }

  /** Writing books out as records and reading them back gives the same books. */
  lemma {:induction false} BooksOfLines(books: seq<Book>)
    ensures |Lines(books)| == 4 * |books|
    ensures Books(Lines(books)) == books
  {
    if books != [] {
      BooksOfLines(books[1..]);
      var ls := Lines(books);
      assert ls[4..] == Lines(books[1..]);
      assert books == [books[0]] + books[1..];
    }
  }

  /** Reading books and writing them back gives the input up to its last
      complete record. */
  lemma {:induction false} LinesOfBooks(lines: seq<string>)
    ensures Lines(Books(lines)) == lines[..|lines| / 4 * 4]
  {
    if |lines| >= 4 {
      LinesOfBooks(lines[4..]);
      var bs := Books(lines);
      assert bs[1..] == Books(lines[4..]);
      assert lines[..|lines| / 4 * 4] == lines[..4] + lines[4..][..|lines[4..]| / 4 * 4];
    }
  }

  /** The line spliterator that `BookSpliterator` wraps: an ordered, sized
      cursor over a fixed sequence of lines, whose size estimate is the number
      of lines left. */
  class LineSpliterator {
    const lines: seq<string>
    const bits: int
    var cursor: nat

    ghost predicate Valid()
      reads this
    {
      cursor <= |lines|
    }

    constructor (lines: seq<string>, bits: int)
      ensures Valid()
      ensures this.lines == lines && this.bits == bits && cursor == 0
    {
      this.lines := lines;
      this.bits := bits;
      cursor := 0;
    }

    /** `tryAdvance`: hands the next line to the action, if there is one. */
    method TryAdvance() returns (advanced: bool, line: Option<string>)
      requires Valid()
      modifies this
      ensures Valid()
      ensures advanced <==> old(cursor) < |lines|
      ensures advanced ==> cursor == old(cursor) + 1 && line == Some(lines[old(cursor)])
      ensures !advanced ==> cursor == old(cursor) && line == None
    {
      if cursor < |lines| {
        line := Some(lines[cursor]);
        cursor := cursor + 1;
        advanced := true;
      } else {
        line := None;
        advanced := false;
      }
    }

    /** `estimateSize`: the number of lines left. */
    function EstimateSize(): nat
      reads this
      requires Valid()
    {
      |lines| - cursor
    }
  }

  /** `BookSpliterator`: the fields hold the parts of the record read last;
      they start out null (`None`). */
  class BookSpliterator {
    var score: Option<string>
    var author: Option<string>
    var genre: Option<string>
    var name: Option<string>
    const base: LineSpliterator

    ghost predicate Valid()
      reads this, base
    {
      base.Valid()
    }

    constructor (base: LineSpliterator)
      requires base.Valid()
      ensures Valid() && this.base == base
      ensures score == None && author == None && genre == None && name == None
    {
      this.base := base;
      score, author, genre, name := None, None, None, None;
    }

    /** The lines the base spliterator has not handed out yet. */
    ghost function Remaining(): seq<string>
      reads this, base
      requires Valid()
    {
      base.lines[base.cursor..]
    }

    /** `tryAdvance`: pulls name, author, genre and score from the base, in that
        order, and stops at the first line that is missing.  With four lines
        available it emits one book made of them and returns true.  Otherwise it
        returns false and emits nothing, but the lines it did read are consumed
        and the fields they were meant for are overwritten. */
    method TryAdvance() returns (advanced: bool, accepted: Option<Book>)
      requires Valid()
      modifies this, base
      ensures Valid()
      ensures var rest := old(Remaining());
        && (advanced <==> |rest| >= 4)
        && Remaining() == rest[Min(|rest|, 4)..]
        && name == (if |rest| > 0 then Some(rest[0]) else old(name))
        && author == (if |rest| > 1 then Some(rest[1]) else old(author))
        && genre == (if |rest| > 2 then Some(rest[2]) else old(genre))
        && score == (if |rest| > 3 then Some(rest[3]) else old(score))
        && accepted == (if advanced then Some(Books(rest)[0]) else None)
    {
      ghost var rest := Remaining();
      advanced, accepted := false, None;
      var got, line := base.TryAdvance();
      if !got { return; }
      name := line;
      got, line := base.TryAdvance();
      if !got { return; }
      author := line;
      got, line := base.TryAdvance();
      if !got { return; }
      genre := line;
      got, line := base.TryAdvance();
      if !got { return; }
      score := line;
      accepted := Some(Book(author.value, genre.value, name.value, score.value));
      advanced := true;
      assert Books(rest)[0] == Book(rest[1], rest[2], rest[0], rest[3]);
    }

    /** Driving `tryAdvance` until it fails, as a sequential stream's
        `forEach` does: the action receives every book of the remaining lines,
        in order, and all remaining lines are consumed. */
    method ForEachRemaining() returns (books: seq<Book>)
      requires Valid()
      modifies this, base
      ensures Valid()
      ensures books == Books(old(Remaining()))
      ensures Remaining() == []
    {
      books := [];
      var more := true;
      while more
        invariant Valid()
        invariant more ==> books + Books(Remaining()) == Books(old(Remaining()))
        invariant !more ==> books == Books(old(Remaining())) && Remaining() == []
        decreases |Remaining()|, more
      {
        ghost var rest := Remaining();
        var advanced, accepted := TryAdvance();
        if advanced {
          assert Books(rest) == [accepted.value] + Books(Remaining());
          books := books + [accepted.value];
        } else {
          assert Books(rest) == [];
          more := false;
        }
      }
    }

    /** `trySplit`: this spliterator never splits. */
    function TrySplit(): (split: BookSpliterator?)
      ensures split == null
    {
      null
    }

    /** `estimateSize`: the base estimate divided by four, which over a sized
        base is exactly the number of books still to come. */
    function EstimateSize(): (size: nat)
      reads this, base
      requires Valid()
      ensures size == |Books(base.lines[base.cursor..])|
      ensures size * 4 <= base.EstimateSize() < size * 4 + 4
    {
      BooksCount(base.lines[base.cursor..]);
      base.EstimateSize() / 4
    }

    /** `characteristics`: those of the base, unchanged. */
    function Characteristics(): (bits: int)
      ensures bits == base.bits
    {
      base.bits
    }
  }

  function Min(a: int, b: int): int
  {
    if a < b then a else b
  }
}
