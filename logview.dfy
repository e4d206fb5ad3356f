/** The row selection of the log viewer in application/logview.py: which
    files and lines `load_logs` takes, the global search and per-column
    filters of `filter_table`, the stable column sort of `sort_by`, and the
    projection of entries onto the table's fixed columns.

    A log entry is a dictionary from keys to string values. The directory
    listing is passed in as a sequence of files with their lines, and
    `json.loads` as a partial function `parse` from a line to an entry. The
    table widget is represented by the rows it shows. */
module LogViewer {
  import opened Wrappers
  import Text

  type Entry = map<string, string>

  /** The columns of the table, in display order. */
  const FixedColumns: seq<string> := ["timestamp", "level", "module", "function", "event", "step", "data"]

  /** `entry.get(col, "")`. */
  function Get(e: Entry, col: string): string
  {
    if col in e then e[col] else ""
  }

  // ---------------------------------------------------------------- filter

  /** The entries of `s` that satisfy `p`, in their order in `s`. */
  function Filter<T>(s: seq<T>, p: T -> bool): (r: seq<T>)
    ensures |r| <= |s|
  {
    if s == [] then []
    else Filter(s[..|s| - 1], p) + (if p(s[|s| - 1]) then [s[|s| - 1]] else [])
  }

  /** Filtering keeps only entries of the original that satisfy `p`. */
  lemma {:induction false} FilterMembers<T>(s: seq<T>, p: T -> bool)
    ensures forall x :: x in Filter(s, p) ==> x in s && p(x)
    decreases |s|
  {
    if s != [] {
      FilterMembers(s[..|s| - 1], p);
    }
  }

  /** Filtering distributes over concatenation, so it keeps relative order. */
  lemma {:induction false} FilterConcat<T>(a: seq<T>, b: seq<T>, p: T -> bool)
    ensures Filter(a + b, p) == Filter(a, p) + Filter(b, p)
    decreases |b|
  {
    if b == [] {
      assert a + b == a;
    } else {
      var c := b[..|b| - 1];
      assert (a + b)[..|a + b| - 1] == a + c;
      assert (a + b)[|a + b| - 1] == b[|b| - 1];
      FilterConcat(a, c, p);
    }
  }

  /** An entry occurs in the filtered sequence as often as in the original
      when it satisfies `p`, and not at all otherwise. */
  lemma {:induction false} FilterCount<T>(s: seq<T>, p: T -> bool, x: T)
    ensures multiset(Filter(s, p))[x] == if p(x) then multiset(s)[x] else 0
    decreases |s|
  {
    if s != [] {
      var init := s[..|s| - 1];
      FilterCount(init, p, x);
      assert s == init + [s[|s| - 1]];
    }
  }

  /** When every entry satisfies `p`, filtering keeps them all. */
  lemma {:induction false} FilterAll<T>(s: seq<T>, p: T -> bool)
    requires forall x :: x in s ==> p(x)
    ensures Filter(s, p) == s
    decreases |s|
  {
    if s != [] {
      FilterAll(s[..|s| - 1], p);
      assert s == s[..|s| - 1] + [s[|s| - 1]];
    }
  }

  /** When no entry satisfies `p`, nothing is kept. */
  lemma FilterNone<T>(s: seq<T>, p: T -> bool)
    requires forall x :: x in s ==> !p(x)
    ensures Filter(s, p) == []
  {
    FilterMembers(s, p);
  }

  // ---------------------------------------------------------------- rows

  /** `populate_table`'s row for one entry: one value per fixed column, in
      column order, "" where the entry lacks the key. */
  function Row(e: Entry): (row: seq<string>)
    ensures |row| == |FixedColumns|
    ensures forall i :: 0 <= i < |FixedColumns| ==>
      (FixedColumns[i] in e ==> row[i] == e[FixedColumns[i]]) && (FixedColumns[i] !in e ==> row[i] == "")
  {
    seq(|FixedColumns|, i requires 0 <= i < |FixedColumns| => Get(e, FixedColumns[i]))
  }

  /** The rows of a sequence of entries, one per entry, in order. */
  function Rows(logs: seq<Entry>): (rows: seq<seq<string>>)
    ensures |rows| == |logs|
    ensures forall i :: 0 <= i < |logs| ==> rows[i] == Row(logs[i])
  {
    if logs == [] then [] else Rows(logs[..|logs| - 1]) + [Row(logs[|logs| - 1])]
  }

  // ---------------------------------------------------------------- search and column filters

  /** Some fixed column of the entry, lower-cased, contains `query`. */
  predicate MatchesQuery(e: Entry, query: string)
  {
    exists i :: 0 <= i < |FixedColumns| && Text.Contains(Text.Lower(Get(e, FixedColumns[i])), query)
  }

  /** The non-blank pieces, stripped and lower-cased, in order. */
  function TokensOf(parts: seq<string>): (tokens: seq<string>)
    ensures forall t :: t in tokens ==> t != []
  {
    if parts == [] then []
    else
      var piece := Text.Strip(parts[0]);
      if piece != [] then [Text.Lower(piece)] + TokensOf(parts[1..]) else TokensOf(parts[1..])
  }

  /** The token of a piece: the piece stripped and lower-cased. */
  function TokenOf(piece: string): string
  {
    Text.Lower(Text.Strip(piece))
  }

  /** The tokens are exactly the tokens of the non-blank pieces. */
  lemma TokensOfPieces(parts: seq<string>)
    ensures forall t :: t in TokensOf(parts) ==>
      exists i :: 0 <= i < |parts| && Text.Strip(parts[i]) != [] && t == TokenOf(parts[i])
    ensures forall i :: 0 <= i < |parts| && Text.Strip(parts[i]) != [] ==> TokenOf(parts[i]) in TokensOf(parts)
  {
    forall t | t in TokensOf(parts)
      ensures exists i :: 0 <= i < |parts| && Text.Strip(parts[i]) != [] && t == TokenOf(parts[i])
    {
      TokenSource(parts, t);
    }
    forall i | 0 <= i < |parts| && Text.Strip(parts[i]) != []
      ensures TokenOf(parts[i]) in TokensOf(parts)
    {
      PieceToken(parts, i);
    }
  }

  lemma {:induction false} TokenSource(parts: seq<string>, t: string)
    requires t in TokensOf(parts)
    ensures exists i :: 0 <= i < |parts| && Text.Strip(parts[i]) != [] && t == TokenOf(parts[i])
    decreases |parts|
  {
    var tail := parts[1..];
    if t in TokensOf(tail) {
      TokenSource(tail, t);
      var i :| 0 <= i < |tail| && Text.Strip(tail[i]) != [] && t == TokenOf(tail[i]);
      assert parts[i + 1] == tail[i];
    } else {
      assert t == TokenOf(parts[0]);
    }
  }

  lemma {:induction false} PieceToken(parts: seq<string>, i: int)
    requires 0 <= i < |parts| && Text.Strip(parts[i]) != []
    ensures TokenOf(parts[i]) in TokensOf(parts)
    decreases |parts|
  {
    if i > 0 {
      var tail := parts[1..];
      assert parts[i] == tail[i - 1];
      PieceToken(tail, i - 1);
    }
  }

  /** Pieces that are all blank give no tokens. */
  lemma {:induction false} TokensOfBlank(parts: seq<string>)
    requires forall i :: 0 <= i < |parts| ==> Text.Strip(parts[i]) == []
    ensures TokensOf(parts) == []
  {
    if parts != [] {
      assert forall i :: 1 <= i < |parts| ==> parts[1..][i - 1] == parts[i];
      TokensOfBlank(parts[1..]);
    }
  }

  /** The tokens of a column filter: its comma-separated pieces that are not
      blank, stripped and lower-cased. */
  function Tokens(ftext: string): seq<string>
  {
    TokensOf(Text.Split(ftext, ','))
  }

  /** One of the tokens occurs in the field. */
  predicate AnyTokenIn(tokens: seq<string>, field: string)
  {
    exists t :: t in tokens && Text.Contains(field, t)
  }

  /** An entry passes one column filter when the filter is empty or one of
      its tokens occurs in the entry's lower-cased value for that column. */
  predicate PassesColumn(e: Entry, col: string, ftext: string)
  {
    ftext == "" || AnyTokenIn(Tokens(ftext), Text.Lower(Get(e, col)))
  }

  /** An entry passes all column filters. */
  predicate PassesFilters(e: Entry, filters: map<string, string>)
  {
    forall col :: col in filters ==> PassesColumn(e, col, filters[col])
  }

  /** `filter_table`'s test of one entry against the lower-cased global query
      and the column filters. */
  predicate Keep(e: Entry, query: string, filters: map<string, string>)
  {
    (query == "" || MatchesQuery(e, query)) && PassesFilters(e, filters)
  }

  /** The entries `filter_table` keeps, in their original order. */
  function Selected(logs: seq<Entry>, query: string, filters: map<string, string>): (kept: seq<Entry>)
    ensures forall e :: e in kept ==> e in logs && Keep(e, query, filters)
  {
    FilterMembers(logs, Keeps(query, filters));
    Filter(logs, Keeps(query, filters))
  }

  /** `Keep` as a test on entries. */
  function Keeps(query: string, filters: map<string, string>): (p: Entry -> bool)
    ensures forall e :: p(e) == Keep(e, query, filters)
  {
    e => Keep(e, query, filters)
  }

  lemma SelectedStep(logs: seq<Entry>, i: int, query: string, filters: map<string, string>)
    requires 0 <= i < |logs|
    ensures Selected(logs[..i + 1], query, filters)
            == Selected(logs[..i], query, filters) + (if Keep(logs[i], query, filters) then [logs[i]] else [])
  {
    assert logs[..i + 1][..i] == logs[..i];
  }

  /** `filter_table` keeps exactly the entries that pass, each as often as it
      occurs, and keeps their order: selecting from a concatenation is
      concatenating the selections. */
  lemma SelectedExactly(logs: seq<Entry>, more: seq<Entry>, query: string, filters: map<string, string>)
    ensures forall e :: multiset(Selected(logs, query, filters))[e]
                        == if Keep(e, query, filters) then multiset(logs)[e] else 0
    ensures Selected(logs + more, query, filters) == Selected(logs, query, filters) + Selected(more, query, filters)
  {
    forall e
      ensures multiset(Selected(logs, query, filters))[e] == if Keep(e, query, filters) then multiset(logs)[e] else 0
    {
      FilterCount(logs, Keeps(query, filters), e);
    }
    FilterConcat(logs, more, Keeps(query, filters));
  }

  /** With no global query and every column filter empty, every entry is
      kept. */
  lemma NoFiltersKeepAll(logs: seq<Entry>, filters: map<string, string>)
    requires forall col :: col in filters ==> filters[col] == ""
    ensures Selected(logs, "", filters) == logs
  {
    FilterAll(logs, Keeps("", filters));
  }

  /** Splitting a text made only of commas and white space at the commas
      gives pieces made only of white space. */
  lemma {:induction false} SplitBlank(s: string)
    requires forall k :: 0 <= k < |s| ==> s[k] == ',' || Text.IsSpace(s[k])
    ensures forall i, k :: 0 <= i < |Text.Split(s, ',')| && 0 <= k < |Text.Split(s, ',')[i]| ==>
      Text.IsSpace(Text.Split(s, ',')[i][k])
  {
    if s != [] {
      SplitBlank(s[1..]);
      var rest := Text.Split(s[1..], ',');
      if s[0] != ',' {
        var first := [s[0]] + rest[0];
        assert forall k :: 1 <= k < |first| ==> first[k] == rest[0][k - 1];
      }
    }
  }

  /** A filter made only of commas and white space has no tokens, so once
      set it rejects every entry. */
  lemma BlankFilterRejects(e: Entry, col: string, ftext: string)
    requires ftext != ""
    requires forall k :: 0 <= k < |ftext| ==> ftext[k] == ',' || Text.IsSpace(ftext[k])
    ensures Tokens(ftext) == []
    ensures !PassesColumn(e, col, ftext)
  {
    var parts := Text.Split(ftext, ',');
    SplitBlank(ftext);
    forall i | 0 <= i < |parts|
      ensures Text.Strip(parts[i]) == []
    {
      Text.StripEnds(parts[i]);
    }
    TokensOfBlank(parts);
  }

  /** A filter set to "" has the same effect as no filter for that column. */
  lemma ClearedFilterIgnored(e: Entry, query: string, filters: map<string, string>, col: string)
    ensures Keep(e, query, filters[col := ""]) <==> Keep(e, query, filters - {col})
  {
    var cleared := filters[col := ""];
    var removed := filters - {col};
    if PassesFilters(e, removed) {
      forall c | c in cleared
        ensures PassesColumn(e, c, cleared[c])
      {
        if c != col {
          assert c in removed;
        }
      }
    }
    if PassesFilters(e, cleared) {
      forall c | c in removed
        ensures PassesColumn(e, c, removed[c])
      {
        assert c in cleared;
      }
    }
  }

  /** The inner loop of `filter_table`: visits the column filters one by one
      and stops at the first one the entry fails. */
  method CheckFilters(e: Entry, filters: map<string, string>) returns (passes: bool)
    ensures passes <==> PassesFilters(e, filters)
  {
    var pending := filters.Keys;
    passes := true;
    while pending != {}
      invariant pending <= filters.Keys
      invariant forall col :: col in filters && col !in pending ==> PassesColumn(e, col, filters[col])
      decreases |pending|
    {
      var col :| col in pending;
      var ftext := filters[col];
      if ftext != "" {
        var tokens := Tokens(ftext);
        var fieldValue := Text.Lower(Get(e, col));
        if !AnyTokenIn(tokens, fieldValue) {
          passes := false;
          break;
        }
      }
      pending := pending - {col};
    }
  }

  // ---------------------------------------------------------------- stable sort

  /** With the sort key `entry.get(col, "")`, `x` must come strictly before
      `y`: its key is smaller (ascending) or larger (descending). */
  predicate Precedes(x: Entry, y: Entry, col: string, descending: bool)
  {
    if descending then Text.Less(Get(y, col), Get(x, col)) else Text.Less(Get(x, col), Get(y, col))
  }

  lemma PrecedesIrreflexive(x: Entry, y: Entry, col: string, descending: bool)
    requires Get(x, col) == Get(y, col)
    ensures !Precedes(x, y, col, descending)
  {
    Text.LessIrreflexive(Get(x, col));
  }

  lemma PrecedesTransitive(x: Entry, y: Entry, z: Entry, col: string, descending: bool)
    requires Precedes(x, y, col, descending) && Precedes(y, z, col, descending)
    ensures Precedes(x, z, col, descending)
  {
    if descending {
      Text.LessTransitive(Get(z, col), Get(y, col), Get(x, col));
    } else {
      Text.LessTransitive(Get(x, col), Get(y, col), Get(z, col));
    }
  }

  /** No entry is preceded by one after it. */
  predicate SortedBy(s: seq<Entry>, col: string, descending: bool)
  {
    forall i, j :: 0 <= i < j < |s| ==> InOrder(s, i, j, col, descending)
  }

  /** The entry at `j` does not have to come before the one at `i`. */
  predicate InOrder(s: seq<Entry>, i: int, j: int, col: string, descending: bool)
    requires 0 <= i < |s| && 0 <= j < |s|
  {
    !Precedes(s[j], s[i], col, descending)
  }

  /** The entries of `s` whose sort key is `key`, in their order in `s`. */
  function KeyRun(s: seq<Entry>, col: string, key: string): seq<Entry>
  {
    Filter(s, HasKey(col, key))
  }

  /** The test "the entry's sort key is `key`". */
  function HasKey(col: string, key: string): (p: Entry -> bool)
    ensures forall e :: p(e) == (Get(e, col) == key)
  {
    e => Get(e, col) == key
  }

  /** Where a stable insertion puts `x`: before the first entry it must
      precede, after all others. */
  function InsertionPoint(s: seq<Entry>, x: Entry, col: string, descending: bool): (j: nat)
    ensures j <= |s|
    ensures forall m :: 0 <= m < j ==> !Precedes(x, s[m], col, descending)
    ensures j < |s| ==> Precedes(x, s[j], col, descending)
  {
    if s == [] || Precedes(x, s[0], col, descending) then 0
    else 1 + InsertionPoint(s[1..], x, col, descending)
  }

  function Insert(s: seq<Entry>, x: Entry, col: string, descending: bool): seq<Entry>
  {
    var j := InsertionPoint(s, x, col, descending);
    s[..j] + [x] + s[j..]
  }

  /** The stable sort: the entries inserted one by one, in their original
      order. */
  function StableSorted(s: seq<Entry>, col: string, descending: bool): seq<Entry>
  {
    if s == [] then [] else Insert(StableSorted(s[..|s| - 1], col, descending), s[|s| - 1], col, descending)
  }

  /** In a sorted sequence, every entry after one that `x` precedes is
      preceded by `x` too. */
  lemma PrecedesOnward(s: seq<Entry>, x: Entry, j: int, col: string, descending: bool)
    requires SortedBy(s, col, descending) && 0 <= j < |s| && Precedes(x, s[j], col, descending)
    ensures forall m :: j <= m < |s| ==> Precedes(x, s[m], col, descending)
  {
    forall m | j < m < |s|
      ensures Precedes(x, s[m], col, descending)
    {
      Text.LessTotal(Get(s[j], col), Get(s[m], col));
      assert InOrder(s, j, m, col, descending);
      if Precedes(s[j], s[m], col, descending) {
        PrecedesTransitive(x, s[j], s[m], col, descending);
      }
    }
  }

  lemma InsertSorted(s: seq<Entry>, x: Entry, col: string, descending: bool)
    requires SortedBy(s, col, descending)
    ensures SortedBy(Insert(s, x, col, descending), col, descending)
  {
    var j := InsertionPoint(s, x, col, descending);
    var r := Insert(s, x, col, descending);
    if j < |s| {
      PrecedesOnward(s, x, j, col, descending);
    }
    forall a, b | 0 <= a < b < |r|
      ensures InOrder(r, a, b, col, descending)
    {
      InsertPairInOrder(s, x, j, a, b, col, descending);
    }
  }

  /** One pair of positions after inserting `x` at its insertion point. */
  lemma InsertPairInOrder(s: seq<Entry>, x: Entry, j: int, a: int, b: int, col: string, descending: bool)
    requires SortedBy(s, col, descending)
    requires 0 <= j <= |s| && 0 <= a < b <= |s|
    requires forall m :: 0 <= m < j ==> !Precedes(x, s[m], col, descending)
    requires forall m :: j <= m < |s| ==> Precedes(x, s[m], col, descending)
    ensures InOrder(s[..j] + [x] + s[j..], a, b, col, descending)
  {
    var r := s[..j] + [x] + s[j..];
    if a < j && b == j {
      assert r[a] == s[a] && r[b] == x;
    } else if a == j {
      assert r[a] == x && r[b] == s[b - 1];
      if Precedes(s[b - 1], x, col, descending) {
        PrecedesTransitive(s[b - 1], x, s[b - 1], col, descending);
        PrecedesIrreflexive(s[b - 1], s[b - 1], col, descending);
      }
    } else {
      var a' := if a < j then a else a - 1;
      var b' := if b < j then b else b - 1;
      assert r[a] == s[a'] && r[b] == s[b'];
      assert InOrder(s, a', b', col, descending);
    }
  }

  lemma InsertMultiset(s: seq<Entry>, x: Entry, col: string, descending: bool)
    ensures multiset(Insert(s, x, col, descending)) == multiset(s) + multiset{x}
  {
    var j := InsertionPoint(s, x, col, descending);
    assert s == s[..j] + s[j..];
  }

  /** Past the insertion point of `x` in a sorted sequence no entry shares
      its key. */
  lemma KeyRunAfterInsertionPoint(s: seq<Entry>, x: Entry, col: string, descending: bool)
    requires SortedBy(s, col, descending)
    ensures KeyRun(s[InsertionPoint(s, x, col, descending)..], col, Get(x, col)) == []
  {
    var j := InsertionPoint(s, x, col, descending);
    if j < |s| {
      PrecedesOnward(s, x, j, col, descending);
      forall e | e in s[j..]
        ensures Get(e, col) != Get(x, col)
      {
        if Get(e, col) == Get(x, col) {
          PrecedesIrreflexive(x, e, col, descending);
        }
      }
    }
    FilterNone(s[j..], HasKey(col, Get(x, col)));
  }

  lemma KeyRunSingle(x: Entry, col: string, key: string)
    ensures KeyRun([x], col, key) == if Get(x, col) == key then [x] else []
  {
    assert [x][..0] == [];
  }

  lemma KeyRunConcat(a: seq<Entry>, b: seq<Entry>, col: string, key: string)
    ensures KeyRun(a + b, col, key) == KeyRun(a, col, key) + KeyRun(b, col, key)
  {
    FilterConcat(a, b, HasKey(col, key));
  }

  /** The key run of an insertion splits at the insertion point. */
  lemma KeyRunOfInsert(s: seq<Entry>, x: Entry, j: int, col: string, key: string)
    requires 0 <= j <= |s|
    ensures KeyRun(s[..j] + [x] + s[j..], col, key)
            == KeyRun(s[..j], col, key) + KeyRun([x], col, key) + KeyRun(s[j..], col, key)
    ensures KeyRun(s, col, key) == KeyRun(s[..j], col, key) + KeyRun(s[j..], col, key)
  {
    var front, back := s[..j], s[j..];
    KeyRunConcat(front + [x], back, col, key);
    KeyRunConcat(front, [x], col, key);
    assert front + back == s;
    KeyRunConcat(front, back, col, key);
  }

  /** Inserting into a sorted sequence puts `x` after every entry with the
      same key. */
  lemma InsertKeyRun(s: seq<Entry>, x: Entry, col: string, descending: bool, key: string)
    requires SortedBy(s, col, descending)
    ensures KeyRun(Insert(s, x, col, descending), col, key)
            == KeyRun(s, col, key) + (if Get(x, col) == key then [x] else [])
  {
    var j := InsertionPoint(s, x, col, descending);
    var f, b := KeyRun(s[..j], col, key), KeyRun(s[j..], col, key);
    var single := KeyRun([x], col, key);
    KeyRunOfInsert(s, x, j, col, key);
    KeyRunSingle(x, col, key);
    if Get(x, col) == key {
      KeyRunAfterInsertionPoint(s, x, col, descending);
    }
    Rearrange(f, single, b, Get(x, col) == key);
  }

  lemma Rearrange(f: seq<Entry>, single: seq<Entry>, b: seq<Entry>, matches: bool)
    requires matches ==> b == []
    requires !matches ==> single == []
    ensures f + single + b == f + b + single
  {
    if matches {
      assert f + single + b == f + single;
    } else {
      assert f + single + b == f + b;
    }
  }

  /** `sort_by` leaves a sorted permutation in which entries with equal keys
      keep their original relative order. */
  lemma {:induction false} StableSortCorrect(s: seq<Entry>, col: string, descending: bool)
    ensures SortedBy(StableSorted(s, col, descending), col, descending)
    ensures multiset(StableSorted(s, col, descending)) == multiset(s)
    ensures forall key :: KeyRun(StableSorted(s, col, descending), col, key) == KeyRun(s, col, key)
    decreases |s|
  {
    if s != [] {
      var init, x := s[..|s| - 1], s[|s| - 1];
      var sorted := StableSorted(init, col, descending);
      StableSortCorrect(init, col, descending);
      InsertSorted(sorted, x, col, descending);
      InsertMultiset(sorted, x, col, descending);
      assert s == init + [x];
      forall key
        ensures KeyRun(StableSorted(s, col, descending), col, key) == KeyRun(s, col, key)
      {
        InsertKeyRun(sorted, x, col, descending, key);
        FilterConcat(init, [x], HasKey(col, key));
        KeyRunSingle(x, col, key);
      }
    }
  }

  // ---------------------------------------------------------------- loading

  datatype LogFile = LogFile(name: string, lines: seq<string>)

  predicate IsDigit(c: char)
  {
    '0' <= c <= '9'
  }

  predicate AllDigits(s: string)
  {
    forall k :: 0 <= k < |s| ==> IsDigit(s[k])
  }

  /** The name ends in ".log." followed by the `n` digits that close it. */
  predicate NumberedLogSuffix(name: string, n: int)
  {
    1 <= n && n + 5 <= |name| && name[|name| - n - 5..|name| - n] == ".log." && AllDigits(name[|name| - n..])
  }

  /** What a search for `\.log(?:\.\d+)?$` finds: the name ends in ".log",
      or in ".log." and a run of digits. */
  ghost predicate LogPattern(name: string)
  {
    Text.EndsWith(name, ".log") || exists n :: NumberedLogSuffix(name, n)
  }

  /** The length of the run of digits that ends `s`. */
  function TrailingDigits(s: string): (n: nat)
    ensures n <= |s| && AllDigits(s[|s| - n..])
    ensures n < |s| ==> !IsDigit(s[|s| - n - 1])
  {
    if s != [] && IsDigit(s[|s| - 1]) then
      var n := TrailingDigits(s[..|s| - 1]);
      assert forall k :: |s| - 1 - n <= k < |s| - 1 ==> s[k] == s[..|s| - 1][k];
      1 + n
    else 0
  }

  /** `load_logs`'s file-name test, scanning back over the closing digits. */
  predicate IsLogFileName(name: string)
  {
    var n := TrailingDigits(name);
    if n == 0 then Text.EndsWith(name, ".log") else Text.EndsWith(name[..|name| - n], ".log.")
  }

  /** A closing run of digits preceded by a non-digit is the whole trailing
      run. */
  lemma {:induction false} TrailingDigitsExact(s: string, n: nat)
    requires n <= |s| && AllDigits(s[|s| - n..]) && (n < |s| ==> !IsDigit(s[|s| - n - 1]))
    ensures TrailingDigits(s) == n
    decreases n
  {
    if n > 0 {
      var init := s[..|s| - 1];
      assert s[|s| - 1] == s[|s| - n..][n - 1];
      var run, whole := init[|init| - (n - 1)..], s[|s| - n..];
      forall k | 0 <= k < |run|
        ensures IsDigit(run[k])
      {
        assert run[k] == whole[k];
      }
      if n - 1 < |init| {
        assert init[|init| - (n - 1) - 1] == s[|s| - n - 1];
      }
      TrailingDigitsExact(init, n - 1);
    }
  }

  /** The file-name test agrees with the regular expression. */
  lemma LogFileNameMatchesPattern(name: string)
    ensures IsLogFileName(name) <==> LogPattern(name)
  {
    var n := TrailingDigits(name);
    if n > 0 && IsLogFileName(name) {
      assert name[|name| - n - 5..|name| - n] == name[..|name| - n][|name| - n - 5..];
      assert NumberedLogSuffix(name, n);
    }
    if LogPattern(name) {
      if Text.EndsWith(name, ".log") {
        assert name[|name| - 1] == ".log"[3];
      } else {
        var m :| NumberedLogSuffix(name, m);
        assert name[|name| - m - 1] == ".log."[4];
        TrailingDigitsExact(name, m);
        assert name[..|name| - m][|name| - m - 5..] == name[|name| - m - 5..|name| - m];
      }
    }
  }

  /** The entry one line gives: none when it is blank once stripped or when
      the stripped line does not parse. */
  function LineEntry(line: string, parse: string -> Option<Entry>): Option<Entry>
  {
    var stripped := Text.Strip(line);
    if stripped != "" then parse(stripped) else None
  }

  /** The entries of a file's lines, in order. */
  function ParsedLines(lines: seq<string>, parse: string -> Option<Entry>): (entries: seq<Entry>)
    ensures |entries| <= |lines|
  {
    if lines == [] then []
    else
      ParsedLines(lines[..|lines| - 1], parse)
      + (match LineEntry(lines[|lines| - 1], parse) case Some(e) => [e] case None => [])
  }

  lemma ParsedLinesStep(lines: seq<string>, k: int, parse: string -> Option<Entry>)
    requires 0 <= k < |lines|
    ensures ParsedLines(lines[..k + 1], parse)
            == ParsedLines(lines[..k], parse) + (match LineEntry(lines[k], parse) case Some(e) => [e] case None => [])
  {
    assert lines[..k + 1][..k] == lines[..k];
  }

  /** An entry is read from a file exactly when one of its lines gives it. */
  lemma ParsedLinesExactly(lines: seq<string>, parse: string -> Option<Entry>)
    ensures forall e :: e in ParsedLines(lines, parse) <==>
      exists k :: 0 <= k < |lines| && LineEntry(lines[k], parse) == Some(e)
  {
    forall e | e in ParsedLines(lines, parse)
      ensures exists k :: 0 <= k < |lines| && LineEntry(lines[k], parse) == Some(e)
    {
      ParsedLineSource(lines, parse, e);
    }
    forall k | 0 <= k < |lines| && LineEntry(lines[k], parse).Some?
      ensures LineEntry(lines[k], parse).value in ParsedLines(lines, parse)
    {
      ParsedLineRead(lines, parse, k);
    }
  }

  lemma {:induction false} ParsedLineSource(lines: seq<string>, parse: string -> Option<Entry>, e: Entry)
    requires e in ParsedLines(lines, parse)
    ensures exists k :: 0 <= k < |lines| && LineEntry(lines[k], parse) == Some(e)
    decreases |lines|
  {
    var init := lines[..|lines| - 1];
    if e in ParsedLines(init, parse) {
      ParsedLineSource(init, parse, e);
      var k :| 0 <= k < |init| && LineEntry(init[k], parse) == Some(e);
      assert lines[k] == init[k];
    } else {
      assert LineEntry(lines[|lines| - 1], parse) == Some(e);
    }
  }

  lemma {:induction false} ParsedLineRead(lines: seq<string>, parse: string -> Option<Entry>, k: int)
    requires 0 <= k < |lines| && LineEntry(lines[k], parse).Some?
    ensures LineEntry(lines[k], parse).value in ParsedLines(lines, parse)
    decreases |lines|
  {
    var init := lines[..|lines| - 1];
    if k < |init| {
      assert lines[k] == init[k];
      ParsedLineRead(init, parse, k);
    }
  }

  /** The entries `load_logs` reads from one file: none unless its name
      matches. */
  function FileEntries(file: LogFile, parse: string -> Option<Entry>): seq<Entry>
  {
    if IsLogFileName(file.name) then ParsedLines(file.lines, parse) else []
  }

  /** The entries `load_logs` collects from the listed files, in listing
      order. */
  function Collected(files: seq<LogFile>, parse: string -> Option<Entry>): seq<Entry>
  {
    if files == [] then []
    else Collected(files[..|files| - 1], parse) + FileEntries(files[|files| - 1], parse)
  }

  /** An entry is loaded exactly when some listed file whose name matches
      holds a line that gives it. */
  lemma CollectedExactly(files: seq<LogFile>, parse: string -> Option<Entry>)
    ensures forall e :: e in Collected(files, parse) <==>
      exists i :: 0 <= i < |files| && e in FileEntries(files[i], parse)
  {
    forall e | e in Collected(files, parse)
      ensures exists i :: 0 <= i < |files| && e in FileEntries(files[i], parse)
    {
      CollectedSource(files, parse, e);
    }
    forall i, e | 0 <= i < |files| && e in FileEntries(files[i], parse)
      ensures e in Collected(files, parse)
    {
      CollectedRead(files, parse, i, e);
    }
  }

  lemma {:induction false} CollectedSource(files: seq<LogFile>, parse: string -> Option<Entry>, e: Entry)
    requires e in Collected(files, parse)
    ensures exists i :: 0 <= i < |files| && e in FileEntries(files[i], parse)
    decreases |files|
  {
    var init := files[..|files| - 1];
    if e in Collected(init, parse) {
      CollectedSource(init, parse, e);
      var i :| 0 <= i < |init| && e in FileEntries(init[i], parse);
      assert files[i] == init[i];
    } else {
      assert e in FileEntries(files[|files| - 1], parse);
    }
  }

  lemma {:induction false} CollectedRead(files: seq<LogFile>, parse: string -> Option<Entry>, i: int, e: Entry)
    requires 0 <= i < |files| && e in FileEntries(files[i], parse)
    ensures e in Collected(files, parse)
    decreases |files|
  {
    var init := files[..|files| - 1];
    var here := FileEntries(files[|files| - 1], parse);
    assert Collected(files, parse) == Collected(init, parse) + here;
    if i < |init| {
      assert files[i] == init[i];
      CollectedRead(init, parse, i, e);
    } else {
      assert i == |files| - 1;
    }
  }

  /** The inner loop of `load_logs` over one file: strips each line, skips
      it when blank, and keeps the entries of the lines that parse. */
  method ReadLines(lines: seq<string>, parse: string -> Option<Entry>) returns (entries: seq<Entry>)
    ensures entries == ParsedLines(lines, parse)
  {
    entries := [];
    var k := 0;
    while k < |lines|
      invariant 0 <= k <= |lines|
      invariant entries == ParsedLines(lines[..k], parse)
    {
      ParsedLinesStep(lines, k, parse);
      var line := Text.Strip(lines[k]);
      if line != "" {
        match parse(line)
        case Some(entry) => entries := entries + [entry];
        case None =>
      }
      k := k + 1;
    }
    assert lines[..|lines|] == lines;
  }

  /** The directory loop of `load_logs`: reads every listed file whose name
      matches, in listing order. */
  method CollectEntries(files: seq<LogFile>, parse: string -> Option<Entry>) returns (logs: seq<Entry>)
    ensures logs == Collected(files, parse)
  {
    logs := [];
    var i := 0;
    while i < |files|
      invariant 0 <= i <= |files|
      invariant logs == Collected(files[..i], parse)
    {
      var file := files[i];
      assert files[..i + 1][..i] == files[..i];
      if IsLogFileName(file.name) {
        var entries := ReadLines(file.lines, parse);
        logs := logs + entries;
      }
      i := i + 1;
    }
    assert files[..|files|] == files;
  }

  /** The outer loop of `filter_table`: tests the entries in order against
      the global query, then the column filters. */
  method SelectEntries(logs: seq<Entry>, query: string, filters: map<string, string>) returns (filtered: seq<Entry>)
    ensures filtered == Selected(logs, query, filters)
  {
    filtered := [];
    var i := 0;
    while i < |logs|
      invariant 0 <= i <= |logs|
      invariant filtered == Selected(logs[..i], query, filters)
    {
      var log := logs[i];
      SelectedStep(logs, i, query, filters);
      if query != "" && !MatchesQuery(log, query) {
        i := i + 1;
        continue;
      }
      var passes := CheckFilters(log, filters);
      if passes {
        filtered := filtered + [log];
      }
      i := i + 1;
    }
    assert logs[..|logs|] == logs;
  }

  /** Scans for the first entry of `sorted` that `x` must precede. */
  method FindInsertionPoint(sorted: seq<Entry>, x: Entry, col: string, descending: bool) returns (j: int)
    ensures j == InsertionPoint(sorted, x, col, descending)
  {
    j := 0;
    while j < |sorted| && !Precedes(x, sorted[j], col, descending)
      invariant 0 <= j <= |sorted|
      invariant forall m :: 0 <= m < j ==> !Precedes(x, sorted[m], col, descending)
    {
      j := j + 1;
    }
  }

  /** A stable sort of `source` on `col`, by insertion. */
  method SortEntries(source: seq<Entry>, col: string, descending: bool) returns (sorted: seq<Entry>)
    ensures sorted == StableSorted(source, col, descending)
  {
    sorted := [];
    var i := 0;
    while i < |source|
      invariant 0 <= i <= |source|
      invariant sorted == StableSorted(source[..i], col, descending)
    {
      var x := source[i];
      var j := FindInsertionPoint(sorted, x, col, descending);
      sorted := sorted[..j] + [x] + sorted[j..];
      assert source[..i + 1][..i] == source[..i];
      i := i + 1;
    }
    assert source[..|source|] == source;
  }

  // ---------------------------------------------------------------- the viewer

  class Logview {
    var logs: seq<Entry>
    var filteredLogs: seq<Entry>
    var columnFilters: map<string, string>
    /** The contents of the global search box. */
    var searchText: string
    /** The rows the table shows. */
    var shown: seq<seq<string>>

    constructor ()
      ensures logs == [] && filteredLogs == [] && columnFilters == map[] && searchText == "" && shown == []
    {
      logs := [];
      filteredLogs := [];
      columnFilters := map[];
      searchText := "";
      shown := [];
    }

    /** `populate_table`: clears the table and inserts one row per entry. */
    method PopulateTable(entries: seq<Entry>)
      modifies this`shown
      ensures shown == Rows(entries)
    {
      shown := [];
      var i := 0;
      while i < |entries|
        invariant 0 <= i <= |entries|
        invariant shown == Rows(entries[..i])
      {
        assert entries[..i + 1][..i] == entries[..i];
        shown := shown + [Row(entries[i])];
        i := i + 1;
      }
      assert entries[..|entries|] == entries;
    }

    /** `load_logs`: collects the entries of the matching files, then resets
        the column filters, shows every entry and lists them all. */
    method LoadLogs(files: seq<LogFile>, parse: string -> Option<Entry>)
      modifies this`logs, this`columnFilters, this`filteredLogs, this`shown
      ensures logs == Collected(files, parse)
      ensures columnFilters == map[] && filteredLogs == logs && shown == Rows(logs)
    {
      logs := CollectEntries(files, parse);
      columnFilters := map[];
      filteredLogs := logs;
      PopulateTable(filteredLogs);
    }

    /** `filter_table`: keeps, in order, the entries that match the
        lower-cased global search and pass every column filter. */
    method FilterTable()
      modifies this`filteredLogs, this`shown
      ensures filteredLogs == Selected(logs, Text.Lower(searchText), columnFilters)
      ensures shown == Rows(filteredLogs)
    {
      filteredLogs := SelectEntries(logs, Text.Lower(searchText), columnFilters);
      PopulateTable(filteredLogs);
    }

    /** The search box's key-release binding: new search text, then
        `filter_table`. */
    method Search(text: string)
      modifies this`searchText, this`filteredLogs, this`shown
      ensures searchText == text
      ensures filteredLogs == Selected(logs, Text.Lower(text), columnFilters)
      ensures shown == Rows(filteredLogs)
    {
      searchText := text;
      FilterTable();
    }

    /** `sort_by`: a stable sort of the shown entries on `col` (missing
        values sort as ""), then the table is refreshed. */
    method SortBy(col: string, descending: bool)
      modifies this`filteredLogs, this`shown
      ensures filteredLogs == StableSorted(old(filteredLogs), col, descending)
      ensures shown == Rows(filteredLogs)
    {
      filteredLogs := SortEntries(filteredLogs, col, descending);
      PopulateTable(filteredLogs);
    }

    /** `set_filter`: a cancelled prompt changes nothing; an answer is stored
        stripped for the column, and the table is filtered again. */
    method SetFilter(col: string, answer: Option<string>)
      modifies this`columnFilters, this`filteredLogs, this`shown
      ensures answer.None? ==>
        columnFilters == old(columnFilters) && filteredLogs == old(filteredLogs) && shown == old(shown)
      ensures answer.Some? ==>
        && columnFilters == old(columnFilters)[col := Text.Strip(answer.value)]
        && filteredLogs == Selected(logs, Text.Lower(searchText), columnFilters)
        && shown == Rows(filteredLogs)
    {
      if answer.Some? {
        columnFilters := columnFilters[col := Text.Strip(answer.value)];
        FilterTable();
      }
    }

    /** `clear_filter`: an existing filter is emptied, not removed, and the
        table is filtered again; a column without a filter changes nothing. */
    method ClearFilter(col: string)
      modifies this`columnFilters, this`filteredLogs, this`shown
      ensures col !in old(columnFilters) ==>
        columnFilters == old(columnFilters) && filteredLogs == old(filteredLogs) && shown == old(shown)
      ensures col in old(columnFilters) ==>
        && columnFilters == old(columnFilters)[col := ""]
        && filteredLogs == Selected(logs, Text.Lower(searchText), columnFilters)
        && shown == Rows(filteredLogs)
    {
      if col in columnFilters {
        columnFilters := columnFilters[col := ""];
        FilterTable();
      }
    }
  }
}
