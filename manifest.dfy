/** The list of external links a course folder ends with: the links with
    duplicates removed, in Python's string order, one per line, written as
    UTF-8 to `external_links.txt`. */
module Manifest {
  import opened Strings
  import opened Downloader

  /** The name of the list in the course folder. */
  const ManifestFile := "external_links.txt"

  // ------------------------------------------------------------ ordering

  /** Each element is below the next, so none is repeated. */
  predicate StrictlySorted(s: seq<string>)
  {
    forall i, j :: 0 <= i < j < |s| ==> Less(s[i], s[j])
  }

  /** Puts `x` into its place in a strictly sorted sequence, unless it is there. */
  function Insert(x: string, s: seq<string>): seq<string>
    decreases |s|
  {
    if s == [] then [x]
    else if x == s[0] then s
    else if Less(x, s[0]) then [x] + s
    else [s[0]] + Insert(x, s[1..])
  }

  /** A head below every element of a strictly sorted tail keeps it sorted. */
  lemma ConsSorted(h: string, t: seq<string>)
    requires StrictlySorted(t) && forall y :: y in t ==> Less(h, y)
    ensures StrictlySorted([h] + t)
  {
    var r := [h] + t;
    forall i, j | 0 <= i < j < |r| ensures Less(r[i], r[j]) {
      assert r[j] == t[j - 1];
      if i > 0 {
        assert r[i] == t[i - 1];
      }
    }
  }

  /** Below the head of a strictly sorted sequence is below all of it. */
  lemma BelowHead(x: string, s: seq<string>)
    requires StrictlySorted(s) && s != [] && Less(x, s[0])
    ensures forall y :: y in s ==> Less(x, y)
  {
    forall y | y in s ensures Less(x, y) {
      var k :| 0 <= k < |s| && s[k] == y;
      if k > 0 {
        LessTransitive(x, s[0], y);
      }
    }
  }

  /** Every element of a strictly sorted tail is above its head. */
  lemma AboveHead(s: seq<string>)
    requires StrictlySorted(s) && s != []
    ensures forall y :: y in s[1..] ==> Less(s[0], y)
  {
    forall y | y in s[1..] ensures Less(s[0], y) {
      var k :| 0 <= k < |s[1..]| && s[1..][k] == y;
      assert s[k + 1] == y;
    }
  }

  /** Inserting keeps the order and adds exactly `x`. */
  lemma {:induction false} InsertSorted(x: string, s: seq<string>)
    requires StrictlySorted(s)
    ensures var r := Insert(x, s); StrictlySorted(r) && forall y :: y in r <==> y == x || y in s
    decreases |s|
  {
    if s == [] {
    } else if x == s[0] {
    } else if Less(x, s[0]) {
      BelowHead(x, s);
      ConsSorted(x, s);
    } else {
      LessTotal(x, s[0]);
      assert StrictlySorted(s[1..]);
      InsertSorted(x, s[1..]);
      AboveHead(s);
      ConsSorted(s[0], Insert(x, s[1..]));
      assert s == [s[0]] + s[1..];
    }
  }

  /** `sorted(list(set(links)))`. */
  function SortedUnique(links: seq<string>): seq<string>
    decreases |links|
  {
    if links == [] then [] else Insert(links[|links| - 1], SortedUnique(links[..|links| - 1]))
  }

  /** The result is strictly sorted and holds exactly the links. */
  lemma {:induction false} SortedUniqueSpec(links: seq<string>)
    ensures var r := SortedUnique(links); StrictlySorted(r) && forall y :: y in r <==> y in links
    decreases |links|
  {
    if links != [] {
      var init := links[..|links| - 1];
      SortedUniqueSpec(init);
      InsertSorted(links[|links| - 1], SortedUnique(init));
      assert links == init + [links[|links| - 1]];
    }
  }

  /** The strictly sorted sequence of a set of strings is unique. */
  lemma {:induction false} SortedSequencesUnique(a: seq<string>, b: seq<string>)
    requires StrictlySorted(a) && StrictlySorted(b)
    requires forall y :: y in a <==> y in b
    ensures a == b
    decreases |a|
  {
    assert a != [] ==> a[0] in b;
    assert b != [] ==> b[0] in a;
    if a != [] {
      if a[0] != b[0] {
        var i :| 0 <= i < |a| && a[i] == b[0];
        var j :| 0 <= j < |b| && b[j] == a[0];
        assert Less(a[0], b[0]);
        assert Less(b[0], a[0]);
        LessTransitive(a[0], b[0], a[0]);
        LessIrreflexive(a[0]);
      }
      forall y ensures y in a[1..] <==> y in b[1..] {
        assert a == [a[0]] + a[1..] && b == [b[0]] + b[1..];
        if y in a[1..] {
          var i :| 0 <= i < |a[1..]| && a[1..][i] == y;
          assert Less(a[0], a[i + 1]);
          if y == a[0] { LessIrreflexive(a[0]); }
          assert a[i + 1] == y && y in a && y in b;
          var k :| 0 <= k < |b| && b[k] == y;
          assert k != 0 && b[1..][k - 1] == y;
        }
        if y in b[1..] {
          var i :| 0 <= i < |b[1..]| && b[1..][i] == y;
          assert Less(b[0], b[i + 1]);
          if y == b[0] { LessIrreflexive(b[0]); }
          assert b[i + 1] == y && y in b && y in a;
          var k :| 0 <= k < |a| && a[k] == y;
          assert k != 0 && a[1..][k - 1] == y;
        }
      }
      SortedSequencesUnique(a[1..], b[1..]);
      assert a == [a[0]] + a[1..] && b == [b[0]] + b[1..];
    }
  }

  /** The list depends only on which links there are, not on their order or
      how often each was appended. */
  lemma SortedUniqueOfSameLinks(links: seq<string>, others: seq<string>)
    requires forall y :: y in links <==> y in others
    ensures SortedUnique(links) == SortedUnique(others)
  {
    SortedUniqueSpec(links);
    SortedUniqueSpec(others);
    SortedSequencesUnique(SortedUnique(links), SortedUnique(others));
  }

  // ------------------------------------------------------------ text

  /** `link + "\n"` for every link, in order. */
  function ManifestText(links: seq<string>): string
    decreases |links|
  {
    if links == [] then "" else links[0] + ['\n'] + ManifestText(links[1..])
  }

  lemma {:induction false} ManifestTextSnoc(links: seq<string>, i: nat)
    requires i < |links|
    ensures ManifestText(links[..i + 1]) == ManifestText(links[..i]) + links[i] + ['\n']
    decreases i
  {
    if i == 0 {
      assert links[..1] == [links[0]];
      assert links[..1][1..] == [];
    } else {
      var tail := links[1..];
      ManifestTextSnoc(tail, i - 1);
      assert links[..i + 1][1..] == tail[..i];
      assert links[..i][1..] == tail[..i - 1];
      assert links[..i + 1][0] == links[0] && links[..i][0] == links[0];
    }
  }

  /** Read back line by line, the text gives the links and a last empty line,
      provided no link holds a line break. */
  lemma {:induction false} ManifestLines(links: seq<string>)
    requires forall k :: 0 <= k < |links| ==> '\n' !in links[k]
    ensures SplitOn(ManifestText(links), '\n') == links + [""]
    decreases |links|
  {
    if links != [] {
      ManifestLines(links[1..]);
      SplitOnCut(links[0], '\n', ManifestText(links[1..]));
      assert links == [links[0]] + links[1..];
    }
  }

  // ------------------------------------------------------------ encoding

  /** The UTF-8 bytes of one character. */
  function Utf8(c: char): (r: seq<Byte>)
    ensures 1 <= |r| <= 4
    ensures |r| == 1 <==> (c as int) < 0x80
    ensures |r| == 1 ==> r[0] == c as int
    ensures |r| > 1 ==> forall k :: 0 <= k < |r| ==> r[k] >= 0x80
  {
    var n := c as int;
    if n < 0x80 then [n]
    else if n < 0x800 then [0xC0 + n / 0x40, 0x80 + n % 0x40]
    else if n < 0x1_0000 then [0xE0 + n / 0x1000, 0x80 + (n / 0x40) % 0x40, 0x80 + n % 0x40]
    else [0xF0 + n / 0x4_0000, 0x80 + (n / 0x1000) % 0x40, 0x80 + (n / 0x40) % 0x40, 0x80 + n % 0x40]
  }

  /** The bytes `f` gives each character of `s`, one after the other. */
  function Flatten(s: string, f: char -> seq<Byte>): seq<Byte>
    decreases |s|
  {
    if s == [] then [] else f(s[0]) + Flatten(s[1..], f)
  }

  lemma {:induction false} FlattenAppend(a: string, b: string, f: char -> seq<Byte>)
    ensures Flatten(a + b, f) == Flatten(a, f) + Flatten(b, f)
    decreases |a|
  {
    if a != [] {
      assert (a + b)[0] == a[0] && (a + b)[1..] == a[1..] + b;
      FlattenAppend(a[1..], b, f);
      assert f(a[0]) + (Flatten(a[1..], f) + Flatten(b, f)) == (f(a[0]) + Flatten(a[1..], f)) + Flatten(b, f);
    } else {
      assert a + b == b;
    }
  }

  /** Text encoded as UTF-8, character by character. */
  function Encode(s: string): seq<Byte>
  {
    Flatten(s, Utf8)
  }

  lemma EncodeAppend(a: string, b: string)
    ensures Encode(a + b) == Encode(a) + Encode(b)
  {
    FlattenAppend(a, b, Utf8);
  }

  /** Line breaks are the only characters whose encoding holds the byte 10. */
  lemma {:induction false} NewlineBytes(s: string)
    ensures 10 in Encode(s) <==> '\n' in s
    decreases |s|
  {
    if s != [] {
      NewlineBytes(s[1..]);
      assert Encode(s) == Utf8(s[0]) + Encode(s[1..]);
      var u := Utf8(s[0]);
      if |u| > 1 {
        assert 10 !in u;
      }
      assert s == [s[0]] + s[1..];
    }
  }

  /** The `with open(..., "w")` block: the list is truncated, then each link
      and a line break are written in turn; nothing else in the folder changes. */
  method WriteManifest(folder: Folder, links: seq<string>) returns (after: Folder)
    ensures after == folder[ManifestFile := Encode(ManifestText(links))]
  {
    after := folder[ManifestFile := []];
    var i := 0;
    while i < |links|
      invariant 0 <= i <= |links|
      invariant after == folder[ManifestFile := Encode(ManifestText(links[..i]))]
    {
      ManifestTextSnoc(links, i);
      EncodeAppend(ManifestText(links[..i]), links[i] + ['\n']);
      assert ManifestText(links[..i + 1]) == ManifestText(links[..i]) + (links[i] + ['\n']);
      after := after[ManifestFile := after[ManifestFile] + Encode(links[i] + ['\n'])];
      i := i + 1;
    }
    assert links[..i] == links;
  }
}
