/** The upload log (app.py): the display name `upload_file` stores for each upload and
    the order in which `list_uploads` shows the logged entities. */
module Uploads {
  import opened Wrappers
  import opened Text
  import opened Numbers

  // ---------------------------------------------------------------- display name

  const NoDate: string := "NoDate"

  /** Ten characters of the shape `\d{4}-\d{2}-\d{2}`. */
  predicate DatePattern(d: string) {
    |d| == 10
    && IsDigit(d[0]) && IsDigit(d[1]) && IsDigit(d[2]) && IsDigit(d[3]) && d[4] == '-'
    && IsDigit(d[5]) && IsDigit(d[6]) && d[7] == '-' && IsDigit(d[8]) && IsDigit(d[9])
  }

  /** The pattern matches `s` at position `i`. */
  predicate DateAt(s: string, i: nat) {
    i + 10 <= |s| && DatePattern(s[i..i + 10])
  }

  /** The leftmost match at or after `i`, as `re.search` scans. */
  function FirstDateFrom(s: string, i: nat): (r: Option<nat>)
    ensures r.None? ==> forall j: nat :: i <= j ==> !DateAt(s, j)
    ensures r.Some? ==> i <= r.value && DateAt(s, r.value)
                        && forall j: nat :: i <= j < r.value ==> !DateAt(s, j)
    decreases |s| - i
  {
    if i + 10 > |s| then None
    else if DateAt(s, i) then Some(i)
    else FirstDateFrom(s, i + 1)
  }

  /** `extracted_date`: the first date-shaped substring of the file name, or "NoDate". */
  function ExtractedDate(filename: string): (d: string)
    ensures d == NoDate || DatePattern(d)
    ensures (forall j: nat :: !DateAt(filename, j)) ==> d == NoDate
    ensures forall k: nat :: DateAt(filename, k) && (forall j: nat :: j < k ==> !DateAt(filename, j))
              ==> d == filename[k..k + 10]
  {
    match FirstDateFrom(filename, 0)
    case None => NoDate
    case Some(k) => filename[k..k + 10]
  }

  /** `display_name = f"{account_name}_{extracted_date}"`. */
  function DisplayName(accountName: string, filename: string): (n: string)
    ensures |n| > |accountName| && n[..|accountName|] == accountName && n[|accountName|] == '_'
    ensures var d := n[|accountName| + 1..]; d == NoDate || DatePattern(d)
  {
    var d := ExtractedDate(filename);
    var n := accountName + "_" + d;
    assert n[|accountName| + 1..] == d;
    n
  }

  /** The display name splits at its last underscore into the account name, whatever
      underscores that holds, and the extracted date, which tells a dated file name from
      an undated one. */
  lemma DisplayNameParts(accountName: string, filename: string)
    ensures var d := DisplayName(accountName, filename)[|accountName| + 1..];
      '_' !in d && (d == NoDate <==> forall j: nat :: !DateAt(filename, j))
  {
    var d := ExtractedDate(filename);
    assert DisplayName(accountName, filename)[|accountName| + 1..] == d;
    if d == NoDate {
      assert !DatePattern(d) by {
        assert !IsDigit(d[0]);
      }
    } else {
      assert DatePattern(d);
      assert d[0] != NoDate[0];
    }
  }

  /** A date right after a digit-free prefix is the one extracted, whatever follows. */
  lemma DateAfterPlainPrefix(prefix: string, date: string, rest: string)
    requires forall i :: 0 <= i < |prefix| ==> !IsDigit(prefix[i])
    requires DatePattern(date)
    ensures ExtractedDate(prefix + date + rest) == date
  {
    var s := prefix + date + rest;
    assert s[|prefix|..|prefix| + 10] == date;
    forall j: nat | j < |prefix| ensures !DateAt(s, j) {
      assert s[j] == prefix[j];
      if j + 10 <= |s| {
        assert s[j..j + 10][0] == s[j];
      }
    }
    assert DateAt(s, |prefix|);
    assert ExtractedDate(s) == s[|prefix|..|prefix| + 10];
  }

  lemma DatedFileName()
    ensures ExtractedDate("usage_" + "2024-03-15" + ".csv") == "2024-03-15"
    ensures DisplayName("acme", "usage_" + "2024-03-15" + ".csv") == "acme" + "_" + "2024-03-15"
  {
    var prefix := "usage_";
    assert !IsDigit(prefix[0]) && !IsDigit(prefix[1]) && !IsDigit(prefix[2]);
    assert !IsDigit(prefix[3]) && !IsDigit(prefix[4]) && !IsDigit(prefix[5]);
    DateAfterPlainPrefix(prefix, "2024-03-15", ".csv");
  }

  lemma UndatedFileName()
    ensures ExtractedDate("usage.csv") == NoDate
  {
  }

  /** Five leading digits: the leftmost match starts at the second of them. */
  lemma LongYear()
    ensures ExtractedDate("20245-03-15") == "0245-03-15"
  {
    var f := "20245-03-15";
    assert !DateAt(f, 0);
    assert DateAt(f, 1);
  }

  // ---------------------------------------------------------------- list order

  /** A logged upload: the entity's properties by name. */
  type Entity = map<string, string>

  /** `x.get('upload_timestamp', '')`. */
  function Key(e: Entity): string {
    if "upload_timestamp" in e then e["upload_timestamp"] else ""
  }

  /** No entity's key is smaller than a later one's. */
  predicate Descending(s: seq<Entity>) {
    forall i, j :: 0 <= i < j < |s| ==> !Less(Key(s[i]), Key(s[j]))
  }

  /** Puts `x` in front of the first entity whose key is smaller, so after every entity
      whose key is at least as large. */
  function InsertDesc(s: seq<Entity>, x: Entity): (r: seq<Entity>)
    ensures |r| == |s| + 1
    decreases |s|
  {
    if s == [] then [x]
    else if Less(Key(s[0]), Key(x)) then [x] + s
    else [s[0]] + InsertDesc(s[1..], x)
  }

  lemma {:induction false} InsertDescPermutation(s: seq<Entity>, x: Entity)
    ensures multiset(InsertDesc(s, x)) == multiset(s) + multiset{x}
    decreases |s|
  {
    if s != [] && !Less(Key(s[0]), Key(x)) {
      InsertDescPermutation(s[1..], x);
      assert s == [s[0]] + s[1..];
    }
  }

  /** `sorted(uploads, key=..., reverse=True)`: Python's sort is stable also when
      reversed, so later entities go after earlier ones of equal key. */
  function SortByUploadTime(s: seq<Entity>): (r: seq<Entity>)
    ensures |r| == |s|
    decreases |s|
  {
    if s == [] then [] else InsertDesc(SortByUploadTime(s[..|s| - 1]), s[|s| - 1])
  }

  /** The entities of `s` whose key is `k`, in their order. */
  function WithKey(s: seq<Entity>, k: string): seq<Entity>
    decreases |s|
  {
    if s == [] then [] else (if Key(s[0]) == k then [s[0]] else []) + WithKey(s[1..], k)
  }

  lemma InsertFront(s: seq<Entity>, x: Entity)
    requires Descending(s) && s != [] && Less(Key(s[0]), Key(x))
    ensures Descending([x] + s)
  {
    var r := [x] + s;
    forall i, j | 0 <= i < j < |r| ensures !Less(Key(r[i]), Key(r[j])) {
      assert r[j] == s[j - 1];
      if i > 0 {
        assert r[i] == s[i - 1];
      } else if j == 1 {
        LessAsymmetric(Key(s[0]), Key(x));
      } else if Less(Key(x), Key(s[j - 1])) {
        LessTransitive(Key(s[0]), Key(x), Key(s[j - 1]));
      }
    }
  }

  lemma InsertBehind(s: seq<Entity>, x: Entity, rest: seq<Entity>)
    requires Descending(s) && s != [] && !Less(Key(s[0]), Key(x))
    requires Descending(rest) && multiset(rest) == multiset(s[1..]) + multiset{x}
    ensures Descending([s[0]] + rest)
  {
    var r := [s[0]] + rest;
    forall j | 0 < j < |r| ensures !Less(Key(s[0]), Key(r[j])) {
      assert r[j] == rest[j - 1];
      assert rest[j - 1] in multiset(rest);
      if rest[j - 1] != x {
        assert rest[j - 1] in multiset(s[1..]);
        var m :| 0 <= m < |s[1..]| && s[1..][m] == rest[j - 1];
        assert s[m + 1] == r[j];
      }
    }
  }

  lemma {:induction false} InsertKeepsDescending(s: seq<Entity>, x: Entity)
    requires Descending(s)
    ensures Descending(InsertDesc(s, x))
    decreases |s|
  {
    if s == [] {
    } else if Less(Key(s[0]), Key(x)) {
      InsertFront(s, x);
    } else {
      InsertKeepsDescending(s[1..], x);
      InsertDescPermutation(s[1..], x);
      InsertBehind(s, x, InsertDesc(s[1..], x));
    }
  }

  lemma {:induction false} WithKeyAppend(a: seq<Entity>, b: seq<Entity>, k: string)
    ensures WithKey(a + b, k) == WithKey(a, k) + WithKey(b, k)
    decreases |a|
  {
    if a == [] {
      assert a + b == b;
    } else {
      var h := if Key(a[0]) == k then [a[0]] else [];
      assert (a + b)[0] == a[0] && (a + b)[1..] == a[1..] + b;
      WithKeyAppend(a[1..], b, k);
      calc {
        WithKey(a + b, k);
        h + WithKey(a[1..] + b, k);
        h + (WithKey(a[1..], k) + WithKey(b, k));
        (h + WithKey(a[1..], k)) + WithKey(b, k);
      }
    }
  }

  lemma {:induction false} NoneWithKey(s: seq<Entity>, k: string)
    requires forall j :: 0 <= j < |s| ==> Key(s[j]) != k
    ensures WithKey(s, k) == []
    decreases |s|
  {
    if s != [] {
      NoneWithKey(s[1..], k);
    }
  }

  lemma DescendingTail(s: seq<Entity>)
    requires Descending(s) && s != []
    ensures Descending(s[1..])
  {
    forall i, j | 0 <= i < j < |s[1..]| ensures !Less(Key(s[1..][i]), Key(s[1..][j])) {
      assert s[1..][i] == s[i + 1] && s[1..][j] == s[j + 1];
    }
  }

  /** An entity put in front of larger keys is the last of its own key. */
  lemma InsertWithKeyFront(s: seq<Entity>, x: Entity, k: string)
    requires Descending(s) && s != [] && Less(Key(s[0]), Key(x))
    ensures WithKey([x] + s, k) == WithKey(s, k) + (if Key(x) == k then [x] else [])
  {
    assert ([x] + s)[0] == x && ([x] + s)[1..] == s;
    if Key(x) == k {
      forall j | 0 <= j < |s| ensures Key(s[j]) != k {
        if j == 0 {
          LessIrreflexive(Key(x));
        } else {
          assert !Less(Key(s[0]), Key(s[j]));
        }
      }
      NoneWithKey(s, k);
    }
  }

  lemma {:induction false} InsertWithKey(s: seq<Entity>, x: Entity, k: string)
    requires Descending(s)
    ensures WithKey(InsertDesc(s, x), k) == WithKey(s, k) + (if Key(x) == k then [x] else [])
    decreases |s|
  {
    if s == [] {
    } else if Less(Key(s[0]), Key(x)) {
      InsertWithKeyFront(s, x, k);
    } else {
      DescendingTail(s);
      InsertWithKey(s[1..], x, k);
      var r := InsertDesc(s, x);
      assert r[0] == s[0] && r[1..] == InsertDesc(s[1..], x);
      SameHeadWithKey(r, s, k, if Key(x) == k then [x] else []);
    }
  }

  /** Two sequences with the same head whose tails agree up to a suffix agree up to it. */
  lemma SameHeadWithKey(s: seq<Entity>, u: seq<Entity>, k: string, e: seq<Entity>)
    requires s != [] && u != [] && s[0] == u[0]
    requires WithKey(s[1..], k) == WithKey(u[1..], k) + e
    ensures WithKey(s, k) == WithKey(u, k) + e
  {
  }

  /** The list is ordered by upload time, newest first. */
  lemma {:induction false} SortedDescending(s: seq<Entity>)
    ensures Descending(SortByUploadTime(s))
    decreases |s|
  {
    if s != [] {
      SortedDescending(s[..|s| - 1]);
      InsertKeepsDescending(SortByUploadTime(s[..|s| - 1]), s[|s| - 1]);
    }
  }

  /** Sorting drops and duplicates nothing. */
  lemma {:induction false} SortedPermutation(s: seq<Entity>)
    ensures multiset(SortByUploadTime(s)) == multiset(s)
    decreases |s|
  {
    if s != [] {
      var n := |s| - 1;
      assert s == s[..n] + [s[n]];
      SortedPermutation(s[..n]);
      InsertDescPermutation(SortByUploadTime(s[..n]), s[n]);
    }
  }

  /** Entities with the same timestamp, or none, keep their order from the table. */
  lemma {:induction false} SortedStable(s: seq<Entity>, k: string)
    ensures WithKey(SortByUploadTime(s), k) == WithKey(s, k)
    decreases |s|
  {
    if s != [] {
      var n := |s| - 1;
      assert s == s[..n] + [s[n]];
      SortedStable(s[..n], k);
      SortedDescending(s[..n]);
      InsertWithKey(SortByUploadTime(s[..n]), s[n], k);
      WithKeyAppend(s[..n], [s[n]], k);
      assert WithKey([s[n]], k) == if Key(s[n]) == k then [s[n]] else [];
    }
  }
}
