/**
  `listMigrationFiles` of `db/migrate.ts`: which directory listings the migration runner accepts. The
  listing is given as `readdirSync`, `filter` and `sort` leave it: distinct names in ascending order.
 */
module MigrationFiles {
  import opened JsText
  import opened Sequences
  import opened Wrappers

  datatype Error = InvalidName(file: string) | DuplicatePrefix(prefix: nat) | NotSequential(expected: nat)

  /** The groups of names that share a prefix for historical reasons. */
  type Legacy = map<nat, seq<string>>

  // ----- names -----

  predicate WordChar(c: char) { 'a' <= c <= 'z' || '0' <= c <= '9' }

  /** `[a-z0-9]+(?:_[a-z0-9]+)*`: words of at least one character between single underscores. */
  predicate Words(s: string) {
    s != "" && WordChar(s[0]) && WordChar(Last(s))
    && forall i | 0 <= i < |s| :: WordChar(s[i]) || (s[i] == '_' && 0 < i && s[i - 1] != '_')
  }

  /** `/^(\d{4})_[a-z0-9]+(?:_[a-z0-9]+)*\.sql$/` */
  predicate WellNamed(file: string) {
    && |file| > 9 && IsDigits(file[..4]) && file[4] == '_'
    && file[|file| - 4..] == ".sql" && Words(file[5..|file| - 4])
  }

  /** An accepted name and its number. Prefixes have four digits, so numbers stand for them. */
  datatype Entry = Entry(number: nat, name: string)

  function Parse(file: string): Option<Entry> {
    if WellNamed(file) then
      assert forall c | c in file[..4] :: IsDigit(c);
      Some(Entry(NumberValue(file[..4]), file))
    else None
  }

  function ParseAll(files: seq<string>): Option<seq<Entry>> {
    if files == [] then Some([])
    else
      match ParseAll(Front(files))
      case None => None
      case Some(es) =>
        match Parse(Last(files))
        case None => None
        case Some(e) => Some(es + [e])
  }

  /** The order of `sort()`. */
  predicate NameBefore(a: string, b: string) {
    b != "" && (a == "" || a[0] < b[0] || (a[0] == b[0] && NameBefore(a[1..], b[1..])))
  }

  predicate Ascending(files: seq<string>) { forall i | 0 <= i < |files| - 1 :: NameBefore(files[i], files[i + 1]) }

  predicate Rising(es: seq<Entry>) { forall i | 0 <= i < |es| - 1 :: es[i].number <= es[i + 1].number }

  lemma FourDigits(p: string)
    requires |p| == 4 && IsDigits(p)
    ensures forall i | 0 <= i < 4 :: IsDigit(p[i])
    ensures NumberValue(p) == ((DigitValue(p[0]) * 10 + DigitValue(p[1])) * 10 + DigitValue(p[2])) * 10 + DigitValue(p[3])
  {
    var q, r, t := Front(p), Front(Front(p)), Front(Front(Front(p)));
    assert t == [p[0]] && r == [p[0], p[1]] && q == [p[0], p[1], p[2]];
    assert Front(t) == "";
    assert NumberValue(t) == DigitValue(p[0]);
    assert NumberValue(r) == NumberValue(t) * 10 + DigitValue(p[1]);
    assert NumberValue(q) == NumberValue(r) * 10 + DigitValue(p[2]);
  }

  /** Four digits in text order are in numeric order. */
  lemma PrefixOrder(a: string, b: string)
    requires Parse(a).Some? && Parse(b).Some? && NameBefore(a, b)
    ensures Parse(a).value.number <= Parse(b).value.number
  {
    var p, q := a[..4], b[..4];
    FourDigits(p);
    FourDigits(q);
    DigitsInOrder(a, b);
  }

  /** Text order, four characters deep. */
  lemma DigitsInOrder(a: string, b: string)
    requires |a| > 4 && |b| > 4 && NameBefore(a, b)
    ensures a[0] <= b[0] && (a[0] == b[0] ==> a[1] <= b[1] && (a[1] == b[1] ==> a[2] <= b[2] && (a[2] == b[2] ==> a[3] <= b[3])))
  {
    var a1, b1 := a[1..], b[1..];
    var a2, b2 := a1[1..], b1[1..];
    var a3, b3 := a2[1..], b2[1..];
    assert a1[0] == a[1] && a2[0] == a[2] && a3[0] == a[3] && b1[0] == b[1] && b2[0] == b[2] && b3[0] == b[3];
    if a[0] == b[0] {
      assert NameBefore(a1, b1);
      if a[1] == b[1] {
        assert NameBefore(a2, b2);
        if a[2] == b[2] {
          assert NameBefore(a3, b3);
        }
      }
    }
  }

  lemma {:induction false} ParseAllEach(files: seq<string>)
    ensures ParseAll(files).Some? <==> forall f | f in files :: WellNamed(f)
    ensures ParseAll(files).Some? ==> |ParseAll(files).value| == |files| && (Ascending(files) ==> Rising(ParseAll(files).value))
    ensures ParseAll(files).Some? ==> forall i | 0 <= i < |files| :: Parse(files[i]) == Some(ParseAll(files).value[i])
  {
    if files != [] {
      ParseAllEach(Front(files));
      assert forall f :: f in files <==> f in Front(files) || f == Last(files);
      if ParseAll(files).Some? && Ascending(files) && |files| > 1 {
        assert Ascending(Front(files));
        PrefixOrder(files[|files| - 2], files[|files| - 1]);
      }
    }
  }

  // ----- groups and numbers -----

  /** The names with a number, in order. */
  function Group(es: seq<Entry>, n: nat): seq<string> {
    if es == [] then [] else Group(Front(es), n) + if Last(es).number == n then [Last(es).name] else []
  }

  /** The distinct numbers, in the order of their first appearance: the keys of `byPrefix`. */
  function Numbers(es: seq<Entry>): seq<nat> {
    if es == [] then []
    else
      var ns, n := Numbers(Front(es)), Last(es).number;
      if n in ns then ns else ns + [n]
  }

  function LegacyGroup(legacy: Legacy, n: nat): seq<string> { if n in legacy then legacy[n] else [] }

  predicate GroupAllowed(es: seq<Entry>, legacy: Legacy, n: nat) {
    |Group(es, n)| > 1 ==> Group(es, n) == LegacyGroup(legacy, n)
  }

  /** The numbers along the listing start at 1 and go up by at most one. */
  predicate Sequential(es: seq<Entry>) {
    && (es != [] ==> es[0].number == 1)
    && forall i | 0 <= i < |es| - 1 :: es[i].number <= es[i + 1].number <= es[i].number + 1
  }

  predicate Counted(ns: seq<nat>) { forall k | 0 <= k < |ns| :: ns[k] == k + 1 }

  lemma {:induction false} NumbersAre(es: seq<Entry>, n: nat)
    ensures n in Numbers(es) <==> Group(es, n) != []
    ensures n in Numbers(es) <==> exists i :: 0 <= i < |es| && es[i].number == n
  {
    if es != [] {
      NumbersAre(Front(es), n);
      if n in Numbers(Front(es)) {
        var i :| 0 <= i < |es| - 1 && Front(es)[i].number == n;
        assert es[i].number == n;
      }
    }
  }

  lemma {:induction false} LastNumber(es: seq<Entry>)
    requires es != [] && Rising(es)
    ensures Numbers(es) != [] && Last(Numbers(es)) == Last(es).number
    ensures forall i | 0 <= i < |es| :: es[i].number <= Last(es).number
  {
    if |es| > 1 {
      var init, n := Front(es), Last(es).number;
      LastNumber(init);
      NumbersAre(init, n);
      assert Last(init) == es[|es| - 2];
    }
  }

  /** The numbers found are 1, 2, 3, ... if and only if along the listing they start at 1 and go up by at
      most one. */
  lemma {:induction false} CountedIff(es: seq<Entry>)
    requires Rising(es)
    ensures Counted(Numbers(es)) <==> Sequential(es)
  {
    if |es| == 1 {
      assert Last(es) == es[0] && Numbers(Front(es)) == [];
      CountedAppend([], es[0].number);
    } else if |es| > 1 {
      var init, n := Front(es), Last(es).number;
      CountedIff(init);
      LastNumber(init);
      NumbersAre(init, n);
      var ns := Numbers(init);
      SequentialStep(es);
      if n in ns {
        var i :| 0 <= i < |init| && init[i].number == n;
        assert n == Last(init).number;
      } else {
        CountedAppend(ns, n);
      }
    }
  }

  lemma CountedAppend(ns: seq<nat>, n: nat)
    ensures Counted(ns + [n]) <==> Counted(ns) && n == |ns| + 1
    ensures Counted(ns) && ns != [] ==> Last(ns) == |ns|
  {
    var all := ns + [n];
    assert all[|ns|] == n;
    assert forall k | 0 <= k < |ns| :: all[k] == ns[k];
  }

  lemma SequentialStep(es: seq<Entry>)
    requires |es| > 1
    ensures Sequential(es) <==> Sequential(Front(es)) && Last(Front(es)).number <= Last(es).number <= Last(Front(es)).number + 1
  {
    var n := |es| - 1;
    assert Last(Front(es)) == es[n - 1];
    assert forall i | 0 <= i < n :: Front(es)[i] == es[i];
  }

  // ----- the listing -----

  /** What the runner accepts. */
  ghost predicate Accepted(files: seq<string>, legacy: Legacy) {
    ParseAll(files).Some? && var es := ParseAll(files).value;
    Sequential(es) && forall n: nat :: GroupAllowed(es, legacy, n)
  }

  /** `listMigrationFiles`: it returns the listing unchanged exactly when every name is well formed, the
      numbers start at 1 and leave no gap, and a shared number is a legacy group to the letter. */
  method ListMigrationFiles(files: seq<string>, legacy: Legacy) returns (r: Result<seq<string>, Error>)
    requires Ascending(files)
    ensures r.Ok? <==> Accepted(files, legacy)
    ensures r.Ok? ==> r.value == files
  {
    var grouped := GroupByPrefix(files);
    if grouped.Err? {
      return Err(grouped.error);
    }
    ghost var es := ParseAll(files).value;
    var (byPrefix, numbers) := grouped.value;
    ParseAllEach(files);
    CountedIff(es);

    var duplicate := FindDuplicate(es, byPrefix, numbers, legacy);
    AllGroupsAllowed(es, legacy, numbers);
    if duplicate.Some? {
      return Err(DuplicatePrefix(duplicate.value));
    }
    var gap := FindGap(numbers);
    if gap.Some? {
      return Err(NotSequential(gap.value));
    }
    return Ok(files);
  }

  /** The second loop. */
  method FindDuplicate(ghost es: seq<Entry>, byPrefix: map<nat, seq<string>>, numbers: seq<nat>, legacy: Legacy)
    returns (duplicate: Option<nat>)
    requires GroupsOk(es, byPrefix) && numbers == Numbers(es)
    ensures duplicate.None? <==> forall j | 0 <= j < |numbers| :: GroupAllowed(es, legacy, numbers[j])
  {
    for k := 0 to |numbers|
      invariant forall j | 0 <= j < k :: GroupAllowed(es, legacy, numbers[j])
    {
      var names := byPrefix[numbers[k]];
      if |names| > 1 && names != LegacyGroup(legacy, numbers[k]) {
        assert !GroupAllowed(es, legacy, numbers[k]);
        return Some(numbers[k]);
      }
    }
    return None;
  }

  /** The third loop. */
  method FindGap(numbers: seq<nat>) returns (expected: Option<nat>)
    ensures expected.None? <==> Counted(numbers)
    ensures expected.Some? ==> 0 < expected.value <= |numbers| && numbers[expected.value - 1] != expected.value
                               && Counted(numbers[..expected.value - 1])
  {
    for index := 0 to |numbers|
      invariant Counted(numbers[..index])
    {
      if numbers[index] != index + 1 {
        assert !Counted(numbers);
        return Some(index + 1);
      }
      CountedAppend(numbers[..index], numbers[index]);
      assert numbers[..index] + [numbers[index]] == numbers[..index + 1];
    }
    assert numbers[..|numbers|] == numbers;
    return None;
  }

  /** The first loop: the map, and its keys in the order they were inserted. */
  method GroupByPrefix(files: seq<string>) returns (r: Result<(map<nat, seq<string>>, seq<nat>), Error>)
    ensures r.Ok? <==> ParseAll(files).Some?
    ensures r.Ok? ==> r.value.1 == Numbers(ParseAll(files).value) && GroupsOk(ParseAll(files).value, r.value.0)
  {
    var byPrefix: map<nat, seq<string>> := map[];
    var numbers: seq<nat> := [];
    ghost var es: seq<Entry> := [];
    for i := 0 to |files|
      invariant ParseAll(files[..i]) == Some(es) && numbers == Numbers(es) && GroupsOk(es, byPrefix)
    {
      assert Front(files[..i + 1]) == files[..i] && Last(files[..i + 1]) == files[i];
      var entry := Parse(files[i]);
      if entry.None? {
        Unparsed(files, i + 1);
        return Err(InvalidName(files[i]));
      }
      var Entry(n, name) := entry.value;
      GroupStep(es, entry.value, byPrefix);
      byPrefix := byPrefix[n := (if n in byPrefix then byPrefix[n] else []) + [name]];
      if n !in numbers {
        numbers := numbers + [n];
      }
      es := es + [entry.value];
    }
    assert files[..|files|] == files;
    return Ok((byPrefix, numbers));
  }

  lemma {:induction false} Unparsed(files: seq<string>, i: nat)
    requires i <= |files| && ParseAll(files[..i]).None?
    ensures ParseAll(files).None?
  {
    if i == |files| {
      assert files[..i] == files;
    } else {
      assert Front(files)[..i] == files[..i];
      Unparsed(Front(files), i);
    }
  }

  /** The map holds every number found, with its names. */
  predicate GroupsOk(es: seq<Entry>, byPrefix: map<nat, seq<string>>) {
    && (forall n | n in Numbers(es) :: n in byPrefix)
    && (forall n | n in byPrefix :: byPrefix[n] == Group(es, n))
  }

  lemma GroupStep(es: seq<Entry>, e: Entry, byPrefix: map<nat, seq<string>>)
    requires GroupsOk(es, byPrefix)
    ensures Numbers(es + [e]) == if e.number in Numbers(es) then Numbers(es) else Numbers(es) + [e.number]
    ensures GroupsOk(es + [e], byPrefix[e.number := (if e.number in byPrefix then byPrefix[e.number] else []) + [e.name]])
  {
    assert Front(es + [e]) == es && Last(es + [e]) == e;
    NumbersAre(es, e.number);
  }

  lemma AllGroupsAllowed(es: seq<Entry>, legacy: Legacy, ns: seq<nat>)
    requires ns == Numbers(es)
    ensures (forall j | 0 <= j < |ns| :: GroupAllowed(es, legacy, ns[j])) <==> forall n: nat :: GroupAllowed(es, legacy, n)
  {
    if forall j | 0 <= j < |ns| :: GroupAllowed(es, legacy, ns[j]) {
      forall n: nat ensures GroupAllowed(es, legacy, n) {
        NumbersAre(es, n);
      }
    }
  }

  /** An ascending listing has no name twice. */
  lemma {:induction false} AscendingIsDistinct(files: seq<string>, i: nat, j: nat)
    requires Ascending(files) && i < j < |files|
    ensures NameBefore(files[i], files[j]) && files[i] != files[j]
    decreases j
  {
    NameOrder(files[i], files[j], files[j]);
    if i < j - 1 {
      AscendingIsDistinct(files, i, j - 1);
      NameOrder(files[i], files[j - 1], files[j]);
    }
    NameOrder(files[i], files[i], files[i]);
  }

  lemma {:induction false} NameOrder(a: string, b: string, c: string)
    ensures !NameBefore(a, a)
    ensures NameBefore(a, b) && NameBefore(b, c) ==> NameBefore(a, c)
    decreases |a| + |b| + |c|
  {
    if a != "" {
      NameOrder(a[1..], if b == "" then "" else b[1..], if c == "" then "" else c[1..]);
    }
  }

  /** `[a-z0-9]`, by code. */
  predicate LowerOrDigit(c: char) { 97 <= c as int <= 122 || 48 <= c as int <= 57 }

  predicate AllWordChars(s: string) { forall i | 0 <= i < |s| :: LowerOrDigit(s[i]) }

  /** The pattern as it reads: a word, and perhaps an underscore and more of the same. */
  ghost predicate MatchesWords(s: string)
    decreases |s|
  {
    exists k | 0 < k <= |s| :: AllWordChars(s[..k]) && (k == |s| || (s[k] == '_' && MatchesWords(s[k + 1..])))
  }

  function WordLen(s: string): (n: nat)
    ensures n <= |s|
  {
    if s == "" || !WordChar(s[0]) then 0 else 1 + WordLen(s[1..])
  }

  lemma {:induction false} WordLenIs(s: string)
    ensures AllWordChars(s[..WordLen(s)]) && (WordLen(s) < |s| ==> !WordChar(s[WordLen(s)]))
  {
    if s != "" && WordChar(s[0]) {
      WordLenIs(s[1..]);
      var n := WordLen(s);
      assert forall i | 0 < i < n :: s[..n][i] == s[1..][..n - 1][i - 1];
    }
  }

  lemma {:induction false} WordsMatch(s: string)
    requires Words(s)
    ensures MatchesWords(s)
    decreases |s|
  {
    var k := WordLen(s);
    WordLenIs(s);
    if k < |s| {
      var rest := s[k + 1..];
      assert s[k] == '_' && rest != "";
      assert Last(rest) == Last(s) && rest[0] == s[k + 1];
      forall i | 0 <= i < |rest| ensures WordChar(rest[i]) || (rest[i] == '_' && 0 < i && rest[i - 1] != '_') {
        assert rest[i] == s[k + 1 + i];
      }
      WordsMatch(rest);
    }
    assert AllWordChars(s[..k]);
  }

  lemma {:induction false} MatchesAreWords(s: string)
    requires MatchesWords(s)
    ensures Words(s)
    decreases |s|
  {
    var k :| 0 < k <= |s| && AllWordChars(s[..k]) && (k == |s| || (s[k] == '_' && MatchesWords(s[k + 1..])));
    assert forall i | 0 <= i < k :: s[i] == s[..k][i];
    if k < |s| {
      var rest := s[k + 1..];
      MatchesAreWords(rest);
      assert Last(rest) == Last(s);
      forall i | 0 <= i < |s| ensures WordChar(s[i]) || (s[i] == '_' && 0 < i && s[i - 1] != '_') {
        if i > k {
          assert rest[i - k - 1] == s[i];
        }
      }
    }
  }

  /** Four digits, an underscore, words, and `.sql`. */
  ghost predicate HasParts(file: string, digits: string, words: string) {
    && |digits| == 4 && (forall i | 0 <= i < 4 :: 48 <= digits[i] as int <= 57)
    && MatchesWords(words) && file == digits + ("_" + (words + ".sql"))
  }

  lemma PartsAreWellNamed(file: string, digits: string, words: string)
    requires HasParts(file, digits, words)
    ensures WellNamed(file)
  {
    MatchesAreWords(words);
    var tail := "_" + (words + ".sql");
    assert file[..4] == digits && file[4..] == tail && file[4] == tail[0];
    assert file[5..] == words + ".sql";
    assert file[5..|file| - 4] == words;
    assert file[|file| - 4..] == file[5..][|words|..] == ".sql";
  }

  /** A name is accepted if and only if it is four digits, an underscore, words of lower-case letters and
      digits between single underscores, and `.sql`. */
  lemma WellNamedIff(file: string)
    ensures WellNamed(file) <==> exists digits, words :: HasParts(file, digits, words)
  {
    if WellNamed(file) {
      var digits, words := file[..4], file[5..|file| - 4];
      WordsMatch(words);
      assert file == digits + ("_" + (words + ".sql"));
      assert forall i | 0 <= i < 4 :: digits[i] in digits && IsDigit(digits[i]);
      assert HasParts(file, digits, words);
    }
    if digits, words :| HasParts(file, digits, words) {
      PartsAreWellNamed(file, digits, words);
    }
  }
}
