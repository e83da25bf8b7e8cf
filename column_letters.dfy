/** `Sheet::LETTER_LIST = ('A'..'ZZZ').to_a` (lib/google_docs/sheet.rb:6):
    the spreadsheet column names in order, and the two ways the sheet code
    uses the table, forward indexing and `index`. The table is modelled as
    bijective base-26 numbering (`ColumnLetter` and its inverse
    `ColumnIndex`), and proved equal to the enumeration Ruby produces by
    repeated `String#succ` from "A" up to "ZZZ". */
module ColumnLetters {
  import opened Wrappers
  import opened RubyText

  /** Number of entries: 26 + 26^2 + 26^3. */
  const LetterCount: int := 18278

  function Letter(d: nat): (c: char)
    requires d < 26
    ensures IsUpper(c)
  {
    ('A' as int + d) as char
  }

  function Ord(c: char): (d: nat)
    requires IsUpper(c)
    ensures d < 26
  {
    c as int - 'A' as int
  }

  predicate AllUpper(s: string) {
    forall i :: 0 <= i < |s| ==> IsUpper(s[i])
  }

  /** The name of the zero-based column `i`: "A" for 0, "Z" for 25, "AA" for 26. */
  function ColumnLetter(i: nat): (s: string)
    ensures |s| >= 1 && AllUpper(s)
    decreases i
  {
    if i < 26 then [Letter(i)] else ColumnLetter(i / 26 - 1) + [Letter(i % 26)]
  }

  /** The column number a name of upper-case letters stands for. */
  function ColumnValue(s: string): nat
    requires |s| >= 1 && AllUpper(s)
  {
    if |s| == 1 then Ord(s[0]) else (ColumnValue(s[..|s| - 1]) + 1) * 26 + Ord(s[|s| - 1])
  }

  /** The strings that occur in the table. */
  predicate IsColumnName(s: string) {
    1 <= |s| <= 3 && AllUpper(s)
  }

  /** `LETTER_LIST.index(s)`: the position of `s`, or nil when it is absent. */
  function ColumnIndex(s: string): Option<nat> {
    if IsColumnName(s) then Some(ColumnValue(s)) else None
  }

  /** `LETTER_LIST[i]` with Ruby's indexing: a negative index counts from the
      end and an index out of range gives nil, which string interpolation
      turns into "". */
  function LetterAt(i: int): (s: string)
    ensures 0 <= i < |LetterList()| ==> s == LetterList()[i]
    ensures -|LetterList()| <= i < 0 ==> s == LetterList()[|LetterList()| + i]
    ensures (i < -|LetterList()| || i >= |LetterList()|) ==> s == ""
    ensures 0 <= i < LetterCount ==> s == ColumnLetter(i)
    ensures -LetterCount <= i < 0 ==> s == ColumnLetter(LetterCount + i)
  {
    if 0 <= i < LetterCount then
      LetterListAt(i);
      ColumnLetter(i)
    else if -LetterCount <= i < 0 then
      LetterListAt(LetterCount + i);
      ColumnLetter(LetterCount + i)
    else
      LetterListAt(0);
      ""
  }

  // ---------------------------------------------------------------------
  // ColumnLetter and ColumnValue are inverse

  lemma {:induction false} ColumnValueOfLetter(i: nat)
    ensures ColumnValue(ColumnLetter(i)) == i
    decreases i
  {
    if i >= 26 {
      var p := ColumnLetter(i / 26 - 1);
      var s := ColumnLetter(i);
      assert s[..|s| - 1] == p;
      ColumnValueOfLetter(i / 26 - 1);
    }
  }

  lemma {:induction false} ColumnLetterOfValue(s: string)
    requires |s| >= 1 && AllUpper(s)
    ensures ColumnLetter(ColumnValue(s)) == s
  {
    if |s| > 1 {
      var p := s[..|s| - 1];
      var o := Ord(s[|s| - 1]);
      var v := ColumnValue(s);
      ColumnLetterOfValue(p);
      assert v == (ColumnValue(p) + 1) * 26 + o;
      DivModStep(ColumnValue(p) + 1, o);
      assert s == p + [s[|s| - 1]];
    }
  }

  lemma DivModStep(q: nat, r: nat)
    requires q >= 1 && r < 26
    ensures (q * 26 + r) / 26 == q && (q * 26 + r) % 26 == r
  {
  }

  /** The table has one-, two- and three-letter names in that order. */
  lemma {:induction false} ColumnLetterLength(i: nat)
    ensures |ColumnLetter(i)| == 1 <==> i < 26
    ensures |ColumnLetter(i)| == 2 <==> 26 <= i < 702
    ensures |ColumnLetter(i)| == 3 <==> 702 <= i < LetterCount
    ensures |ColumnLetter(i)| <= 3 <==> i < LetterCount
    decreases i
  {
    if i >= 26 {
      ColumnLetterLength(i / 26 - 1);
    }
  }

  /** `index` and forward indexing are inverse on the whole table. */
  lemma ColumnIndexRoundTrip(i: nat, s: string)
    ensures i < LetterCount ==> ColumnIndex(ColumnLetter(i)) == Some(i)
    ensures ColumnIndex(s) == Some(i) ==> i < LetterCount && ColumnLetter(i) == s
  {
    ColumnLetterLength(i);
    ColumnValueOfLetter(i);
    if ColumnIndex(s) == Some(i) {
      ColumnLetterOfValue(s);
      ColumnLetterLength(i);
    }
  }

  // ---------------------------------------------------------------------
  // The enumeration ('A'..'ZZZ').to_a

  /** `String#succ` on a string of upper-case letters: the last letter is
      advanced, "Z" wraps to "A" with a carry, and a carry out of the first
      letter adds a new "A" in front. */
  function Succ(s: string): (r: string)
    requires AllUpper(s)
    ensures |r| >= 1 && AllUpper(r)
    decreases |s|
  {
    if s == [] then "A"
    else if s[|s| - 1] == 'Z' then Succ(s[..|s| - 1]) + "A"
    else s[..|s| - 1] + [(s[|s| - 1] as int + 1) as char]
  }

  /** "A".succ applied `k` times: element `k` of the range. */
  function Nth(k: nat): (s: string)
    ensures AllUpper(s)
  {
    if k == 0 then "A" else Succ(Nth(k - 1))
  }

  /** `('A'..'ZZZ').to_a`: `String#upto` yields "A", its successors, and stops
      after "ZZZ" (`LetterListIsTheRange` shows "ZZZ" first occurs at the
      last position and no element is longer than "ZZZ"). */
  ghost function LetterList(): seq<string> {
    seq(LetterCount, k requires 0 <= k < LetterCount => Nth(k))
  }

  lemma {:induction false} SuccOfColumnLetter(i: nat)
    ensures Succ(ColumnLetter(i)) == ColumnLetter(i + 1)
    decreases i
  {
    var s := ColumnLetter(i);
    if i < 26 {
      if i == 25 {
        assert s[..|s| - 1] == [];
        assert Succ([]) + "A" == "AA";
        assert ColumnLetter(26) == ColumnLetter(0) + [Letter(0)];
      }
    } else {
      var p := ColumnLetter(i / 26 - 1);
      assert s[..|s| - 1] == p;
      if i % 26 == 25 {
        SuccOfColumnLetter(i / 26 - 1);
        assert (i + 1) / 26 - 1 == i / 26;
      } else {
        assert (i + 1) / 26 == i / 26 && (i + 1) % 26 == i % 26 + 1;
      }
    }
  }

  lemma {:induction false} NthIsColumnLetter(k: nat)
    ensures Nth(k) == ColumnLetter(k)
  {
    if k > 0 {
      NthIsColumnLetter(k - 1);
      SuccOfColumnLetter(k - 1);
    }
  }

  /** Element `i` of `LETTER_LIST` is `ColumnLetter(i)`. */
  lemma LetterListAt(i: nat)
    requires i < LetterCount
    ensures |LetterList()| == LetterCount && LetterList()[i] == ColumnLetter(i)
  {
    NthIsColumnLetter(i);
  }

  /** `LetterList` is exactly the Ruby range: it starts at "A", every element
      is the `succ` of the one before, its last element is "ZZZ", no earlier
      element is "ZZZ", and no element is longer than three letters. */
  lemma LetterListIsTheRange()
    ensures |LetterList()| == LetterCount && LetterList()[0] == "A"
    ensures forall k :: 0 < k < LetterCount ==> LetterList()[k] == Succ(LetterList()[k - 1])
    ensures LetterList()[LetterCount - 1] == "ZZZ"
    ensures forall k :: 0 <= k < LetterCount - 1 ==> LetterList()[k] != "ZZZ"
    ensures forall k :: 0 <= k < LetterCount ==> 1 <= |LetterList()[k]| <= 3
  {
    var zzz := "ZZZ";
    assert ColumnValue(zzz) == LetterCount - 1 by {
      assert zzz[..2] == "ZZ" && "ZZ"[..1] == "Z";
    }
    LetterListAt(LetterCount - 1);
    ColumnLetterOfValue(zzz);
    forall k | 0 <= k < LetterCount
      ensures 1 <= |LetterList()[k]| <= 3
      ensures k < LetterCount - 1 ==> LetterList()[k] != zzz
    {
      LetterListAt(k);
      ColumnLetterLength(k);
      ColumnValueOfLetter(k);
    }
  }

  /** `LETTER_LIST.index(s)` is the first position holding `s`, and nil
      exactly when `s` is not in the table. */
  lemma ColumnIndexIsFirstPosition(s: string)
    ensures ColumnIndex(s).Some? ==>
              var i := ColumnIndex(s).value;
              i < |LetterList()| && LetterList()[i] == s
              && forall j :: 0 <= j < i ==> LetterList()[j] != s
    ensures ColumnIndex(s).None? <==> s !in LetterList()
  {
    if ColumnIndex(s).Some? {
      var i := ColumnIndex(s).value;
      ColumnIndexRoundTrip(i, s);
      LetterListAt(i);
      forall j | 0 <= j < i ensures LetterList()[j] != s {
        LetterListAt(j);
        ColumnValueOfLetter(j);
      }
    }
    if s in LetterList() {
      var k :| 0 <= k < |LetterList()| && LetterList()[k] == s;
      LetterListAt(k);
      ColumnLetterLength(k);
    }
  }

  /** The names the gem's tests use, the table's ends, and names outside it. */
  lemma ColumnIndexExamples()
    ensures ColumnIndex("A") == Some(0) && ColumnIndex("B") == Some(1) && ColumnIndex("C") == Some(2)
    ensures ColumnIndex("Z") == Some(25) && ColumnIndex("AA") == Some(26)
    ensures ColumnIndex("ZZZ") == Some(LetterCount - 1)
    ensures ColumnIndex("AAAA") == None && ColumnIndex("a") == None && ColumnIndex("") == None
  {
    assert "AA"[..1] == "A";
    assert "ZZZ"[..2] == "ZZ" && "ZZ"[..1] == "Z";
  }
}
