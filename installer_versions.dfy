/** The version rules of the installer's update check (src/installer.ts):
    `compareVersions` and the `needsUpdate` decision. */
module InstallerVersions {
  import opened Wrappers
  import Text
  import VersionParts

  /** `v.replace(/[^\d.]/g, '')`: keeps the decimal digits and the dots. */
  function KeepDigitsDots(v: string): (r: string)
    ensures |r| <= |v|
    ensures forall i :: 0 <= i < |r| ==> Text.IsDigit(r[i]) || r[i] == '.'
    decreases |v|
  {
    if v == [] then []
    else (if Text.IsDigit(v[0]) || v[0] == '.' then [v[0]] else []) + KeepDigitsDots(v[1..])
  }

  lemma {:induction false} KeepAppend(a: string, b: string)
    ensures KeepDigitsDots(a + b) == KeepDigitsDots(a) + KeepDigitsDots(b)
    decreases |a|
  {
    if a != [] {
      assert (a + b)[1..] == a[1..] + b;
      KeepAppend(a[1..], b);
    } else {
      assert a + b == b;
    }
  }

  /** Stripping is idempotent: a stripped version strips to itself. */
  lemma {:induction false} KeepIdempotent(v: string)
    ensures KeepDigitsDots(KeepDigitsDots(v)) == KeepDigitsDots(v)
    decreases |v|
  {
    if v != [] {
      KeepIdempotent(v[1..]);
      var head := if Text.IsDigit(v[0]) || v[0] == '.' then [v[0]] else [];
      KeepAppend(head, KeepDigitsDots(v[1..]));
      if head != [] {
        assert KeepDigitsDots(head) == head by {
          assert head[1..] == [];
        }
      }
    }
  }

  /** White space is stripped like any other character that is neither a
      digit nor a dot. */
  lemma {:induction false} KeepDropsSpace(w: string)
    requires forall i :: 0 <= i < |w| ==> Text.IsSpace(w[i])
    ensures KeepDigitsDots(w) == []
    decreases |w|
  {
    if w != [] {
      KeepDropsSpace(w[1..]);
    }
  }

  /** `parseInt(n) || 0`: `NaN` and `0` both become 0. */
  function Component(n: string): int {
    Text.ParseInt(n).GetOr(0)
  }

  /** The `normalize` arrow of `compareVersions`. */
  function Normalize(v: string): (parts: seq<int>)
    ensures |parts| >= 1
  {
    Components(Text.Split(KeepDigitsDots(v), "."))
  }

  /** `.map(n => parseInt(n) || 0)`. */
  function Components(pieces: seq<string>): (parts: seq<int>)
    ensures |parts| == |pieces|
    ensures forall i :: 0 <= i < |pieces| ==> parts[i] == Component(pieces[i])
  {
    seq(|pieces|, i requires 0 <= i < |pieces| => Component(pieces[i]))
  }

  /** Every piece of a split is made of characters of the split text. */
  lemma {:induction false} SplitPiecesChars(s: string, sep: string)
    requires |sep| > 0
    ensures forall p, c :: p in Text.Split(s, sep) && c in p ==> c in s
    decreases |s|
  {
    match Text.IndexOf(s, sep)
    case None =>
    case Some(i) =>
      SplitPiecesChars(s[i + |sep|..], sep);
      forall p, c | p in Text.Split(s, sep) && c in p ensures c in s {
        if p != s[..i] {
          assert p in Text.Split(s[i + |sep|..], sep);
          assert c in s[i + |sep|..];
        }
      }
  }

  /** Components are never negative: the stripped pieces hold digits only,
      so an empty piece reads as 0 and any other as its decimal value. */
  lemma ComponentsAreDigits(v: string)
    ensures var pieces := Text.Split(KeepDigitsDots(v), ".");
      forall i :: 0 <= i < |pieces| ==>
        (forall k :: 0 <= k < |pieces[i]| ==> Text.IsDigit(pieces[i][k]))
        && Normalize(v)[i] == (if pieces[i] == "" then 0 else Text.DigitsValue(pieces[i]))
        && Normalize(v)[i] >= 0
  {
    var s := KeepDigitsDots(v);
    var pieces := Text.Split(s, ".");
    SplitPiecesChars(s, ".");
    forall i | 0 <= i < |pieces|
      ensures (forall k :: 0 <= k < |pieces[i]| ==> Text.IsDigit(pieces[i][k]))
        && Normalize(v)[i] == (if pieces[i] == "" then 0 else Text.DigitsValue(pieces[i]))
    {
      var p := pieces[i];
      forall k | 0 <= k < |p| ensures Text.IsDigit(p[k]) || p[k] == '.' {
        assert p[k] in p;
        assert p[k] in s;
        var j :| 0 <= j < |s| && s[j] == p[k];
      }
      assert !Text.Contains(p, ".") by {
        SplitPiecesHaveNoSep(s, ".");
      }
      forall k | 0 <= k < |p| ensures p[k] != '.' {
        Text.ContainsChar(p, k);
      }
      if p != "" {
        Text.ParseDigits(p);
      }
    }
  }

  /** No piece of a split contains the separator. */
  lemma {:induction false} SplitPiecesHaveNoSep(s: string, sep: string)
    requires |sep| > 0
    ensures forall p :: p in Text.Split(s, sep) ==> !Text.Contains(p, sep)
    decreases |s|
  {
    match Text.IndexOf(s, sep)
    case None =>
    case Some(i) =>
      SplitPiecesHaveNoSep(s[i + |sep|..], sep);
      FirstIndexIsFirst(s, sep, i);
      Text.SplitAt(s, sep, i);
      PiecesJoined(s[..i], Text.Split(s[i + |sep|..], sep), sep);
  }

  /** A piece without the separator in front of pieces without it. */
  lemma PiecesJoined(head: string, parts: seq<string>, sep: string)
    requires !Text.Contains(head, sep) && forall p :: p in parts ==> !Text.Contains(p, sep)
    ensures forall p :: p in [head] + parts ==> !Text.Contains(p, sep)
  {
  }

  /** Nothing before the first occurrence contains the separator. */
  lemma {:induction false} FirstIndexIsFirst(s: string, sep: string, i: nat)
    requires |sep| > 0 && Text.IndexOf(s, sep) == Some(i)
    ensures !Text.Contains(s[..i], sep)
    decreases |s|
  {
    if i > 0 {
      assert !(sep <= s);
      assert Text.IndexOf(s[1..], sep) == Some(i - 1);
      FirstIndexIsFirst(s[1..], sep, i - 1);
      assert s[..i][1..] == s[1..][..i - 1];
      assert !(sep <= s[..i]);
    }
  }

  /** The first occurrence of a one-character separator in `a + [c] + b`
      is its first occurrence in `a`, or the added one. */
  lemma {:induction false} IndexOfAppend(a: string, c: char, b: string)
    ensures Text.IndexOf(a + [c] + b, [c]) ==
      match Text.IndexOf(a, [c]) case Some(i) => Some(i) case None => Some(|a|)
    decreases |a|
  {
    var x := a + [c] + b;
    if a == [] {
      assert [c] <= x;
    } else if a[0] == c {
      assert [c] <= a && [c] <= x;
    } else {
      assert !([c] <= a) && !([c] <= x);
      assert x[1..] == a[1..] + [c] + b;
      IndexOfAppend(a[1..], c, b);
    }
  }

  /** Splitting on a one-character separator splits each side of an added
      separator separately. */
  lemma {:induction false} SplitAppend(a: string, c: char, b: string)
    ensures Text.Split(a + [c] + b, [c]) == Text.Split(a, [c]) + Text.Split(b, [c])
    decreases |a|
  {
    IndexOfAppend(a, c, b);
    match Text.IndexOf(a, [c])
    case None =>
      SplitAtAdded(a, c, b);
    case Some(i) =>
      var sep, rest := [c], a[i + 1..];
      SplitAppend(rest, c, b);
      AddedAfter(a, c, b, i);
      Text.SplitAt(a + [c] + b, sep, i);
      Text.SplitAt(a, sep, i);
      ConsGlue(a[..i], Text.Split(rest + [c] + b, sep), Text.Split(rest, sep), Text.Split(b, sep));
  }

  /** Without a separator in `a`, the added one is where the split cuts. */
  lemma SplitAtAdded(a: string, c: char, b: string)
    requires Text.IndexOf(a + [c] + b, [c]) == Some(|a|) && Text.IndexOf(a, [c]) == None
    ensures Text.Split(a + [c] + b, [c]) == Text.Split(a, [c]) + Text.Split(b, [c])
  {
    var x := a + [c] + b;
    assert x[..|a|] == a && x[|a| + 1..] == b;
  }

  /** A first piece in front of two runs of pieces. */
  lemma ConsGlue(head: string, joined: seq<string>, front: seq<string>, back: seq<string>)
    requires joined == front + back
    ensures [head] + joined == ([head] + front) + back
  {
  }

  /** Cutting `a + [c] + b` at `i` inside `a`. */
  lemma AddedAfter(a: string, c: char, b: string, i: nat)
    requires i < |a|
    ensures (a + [c] + b)[..i] == a[..i] && (a + [c] + b)[i + 1..] == a[i + 1..] + [c] + b
  {
    var x := a + [c] + b;
    assert a == a[..i + 1] + a[i + 1..];
    assert x == a[..i + 1] + (a[i + 1..] + [c] + b);
  }

  /** `compareVersions`: normalise both versions, then compare component by
      component in an index loop with early return. */
  method CompareVersions(v1: string, v2: string) returns (r: int)
    ensures r == VersionParts.Compare(Normalize(v1), Normalize(v2))
    ensures -1 <= r <= 1
    ensures r == 0 <==> forall i: nat :: VersionParts.Part(Normalize(v1), i) == VersionParts.Part(Normalize(v2), i)
  {
    var parts1 := Normalize(v1);
    var parts2 := Normalize(v2);
    r := VersionParts.CompareLoop(parts1, parts2);
    VersionParts.CompareRange(parts1, parts2);
  }

  /** Swapping the versions negates the comparison. */
  lemma CompareVersionsAntisymmetric(v1: string, v2: string)
    ensures VersionParts.Compare(Normalize(v2), Normalize(v1))
         == -VersionParts.Compare(Normalize(v1), Normalize(v2))
  {
    VersionParts.CompareAntisymmetric(Normalize(v1), Normalize(v2));
  }

  /** Characters other than digits and dots do not matter: `v1.2.3` and
      `1.2.3` normalise alike, and so do a version and its stripped form. */
  lemma IgnoresOtherCharacters(v: string, prefix: string)
    requires forall i :: 0 <= i < |prefix| ==> !Text.IsDigit(prefix[i]) && prefix[i] != '.'
    ensures Normalize(prefix + v) == Normalize(v)
    ensures Normalize(KeepDigitsDots(v)) == Normalize(v)
  {
    KeepAppend(prefix, v);
    assert KeepDigitsDots(prefix) == [] by {
      KeepNone(prefix);
    }
    assert [] + KeepDigitsDots(v) == KeepDigitsDots(v);
    KeepIdempotent(v);
  }

  lemma {:induction false} KeepNone(s: string)
    requires forall i :: 0 <= i < |s| ==> !Text.IsDigit(s[i]) && s[i] != '.'
    ensures KeepDigitsDots(s) == []
    decreases |s|
  {
    if s != [] {
      KeepNone(s[1..]);
    }
  }

  /** A trailing `.0` adds a zero component and never changes the
      comparison: `1.0` equals `1.0.0`. */
  lemma AppendZeroComponent(v: string, other: string)
    ensures Normalize(v + ".0") == Normalize(v) + [0]
    ensures VersionParts.Compare(Normalize(v + ".0"), Normalize(other))
         == VersionParts.Compare(Normalize(v), Normalize(other))
  {
    NormalizeAppendZero(v);
    var a := Normalize(v);
    VersionParts.TrailingZero(a);
    EqualCompareSame(a, a + [0], Normalize(other));
  }

  lemma NormalizeAppendZero(v: string)
    ensures Normalize(v + ".0") == Normalize(v) + [0]
  {
    var s := KeepDigitsDots(v);
    KeepDotZero(v);
    SplitDotZero(s);
    ComponentsAppendZero(Text.Split(s, "."));
  }

  lemma KeepDotZero(v: string)
    ensures KeepDigitsDots(v + ".0") == KeepDigitsDots(v) + ['.'] + "0"
  {
    KeepAppend(v, ".0");
    assert KeepDigitsDots(".0") == ".0";
  }

  lemma SplitDotZero(s: string)
    ensures Text.Split(s + ['.'] + "0", ".") == Text.Split(s, ".") + ["0"]
  {
    assert Text.IndexOf("0", ".") == None by {
      assert "0"[0] != "."[0] && "0"[1..] == [];
      assert Text.IndexOf([], ".") == None;
    }
    SplitAppend(s, '.', "0");
  }

  lemma ComponentsAppendZero(pieces: seq<string>)
    ensures Components(pieces + ["0"]) == Components(pieces) + [0]
  {
    ComponentZero();
    var l := pieces + ["0"];
    forall i | 0 <= i < |l| ensures Components(l)[i] == (Components(pieces) + [0])[i] {
      if i < |pieces| {
        assert l[i] == pieces[i];
      } else {
        assert l[i] == "0";
      }
    }
  }

  lemma ComponentZero()
    ensures Component("0") == 0
  {
    Text.ParseDigits("0");
  }

  /** Versions that compare equal compare alike against any third one. */
  lemma EqualCompareSame(a: seq<int>, b: seq<int>, c: seq<int>)
    requires VersionParts.Compare(a, b) == 0
    ensures VersionParts.Compare(a, c) == VersionParts.Compare(b, c)
  {
    VersionParts.CompareRange(a, b);
    SameParts(a, b, c);
  }

  lemma {:induction false} SameParts(a: seq<int>, b: seq<int>, c: seq<int>)
    requires forall i: nat :: VersionParts.Part(a, i) == VersionParts.Part(b, i)
    ensures VersionParts.Compare(a, c) == VersionParts.Compare(b, c)
    decreases |a| + |b| + |c|
  {
    assert VersionParts.Part(a, 0) == VersionParts.Part(b, 0);
    if a == [] && c == [] {
      assert VersionParts.Compare(a, c) == 0;
      if b != [] {
        assert forall i: nat :: VersionParts.Part(b, i) == VersionParts.Part(c, i);
        VersionParts.CompareRange(b, c);
      }
    } else if b == [] && c == [] {
      assert forall i: nat :: VersionParts.Part(a, i) == VersionParts.Part(c, i);
      VersionParts.CompareRange(a, c);
    } else if (a != [] || c != []) && (b != [] || c != []) {
      forall i: nat ensures VersionParts.Part(VersionParts.Rest(a), i) == VersionParts.Part(VersionParts.Rest(b), i) {
        VersionParts.RestPart(a, i);
        VersionParts.RestPart(b, i);
      }
      SameParts(VersionParts.Rest(a), VersionParts.Rest(b), VersionParts.Rest(c));
    }
  }

  /** The versions the installer reports when it cannot read the installed
      one. */
  predicate Unknown(current: string) {
    current == "unknown" || current == "installed"
  }

  /** `needsUpdate`: an unreadable installed version always needs an update;
      otherwise exactly when the latest version (trimmed) is newer. */
  function NeedsUpdate(current: string, latest: string): (r: bool)
    ensures r <==> (Unknown(current)
      || VersionParts.Compare(Normalize(Text.Trim(latest)), Normalize(current)) == 1)
  {
    CompareVersionsAntisymmetric(current, Text.Trim(latest));
    VersionParts.CompareRange(Normalize(current), Normalize(Text.Trim(latest)));
    Unknown(current) || VersionParts.Compare(Normalize(current), Normalize(Text.Trim(latest))) < 0
  }

  /** Trimming the latest version does not change its components. */
  lemma TrimKeepsComponents(v: string)
    ensures Normalize(Text.Trim(v)) == Normalize(v)
  {
    KeepTrimStart(v);
    KeepTrimEnd(Text.TrimStart(v));
  }

  lemma KeepTrimStart(v: string)
    ensures KeepDigitsDots(Text.TrimStart(v)) == KeepDigitsDots(v)
  {
    var t := Text.TrimStart(v);
    var w := v[..|v| - |t|];
    assert v == w + t;
    KeepAppend(w, t);
    KeepDropsSpace(w);
  }

  lemma KeepTrimEnd(t: string)
    ensures KeepDigitsDots(Text.TrimEnd(t)) == KeepDigitsDots(t)
  {
    var r := Text.TrimEnd(t);
    var w := t[|r|..];
    assert t == r + w;
    KeepAppend(r, w);
    KeepDropsSpace(w);
  }

  /** A readable installed version that equals the latest one never needs
      an update. */
  lemma UpToDateNeedsNoUpdate(v: string)
    requires !Unknown(v)
    ensures !NeedsUpdate(v, v)
  {
    TrimKeepsComponents(v);
    VersionParts.CompareRange(Normalize(v), Normalize(v));
  }
}
