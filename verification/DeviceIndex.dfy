/** Numbering the devices of all platforms in one sequence: each inner list holds the devices of
    one platform. */
module DeviceIndex {

  /** All devices, platform by platform. */
  function Flat<T>(lists: seq<seq<T>>): seq<T> {
    if lists == [] then [] else lists[0] + Flat(lists[1..])
  }

  /** Number of devices of the platforms before platform i. */
  function Offset<T>(lists: seq<seq<T>>, i: nat): nat
    requires i <= |lists|
  {
    if i == 0 then 0 else Offset(lists, i - 1) + |lists[i - 1]|
  }

  /** Device j of platform i has number pos. */
  predicate At<T>(lists: seq<seq<T>>, pos: int, i: nat, j: nat) {
    i < |lists| && j < |lists[i]| && pos == Offset(lists, i) + j
  }

  lemma {:induction false} OffsetTail<T>(lists: seq<seq<T>>, i: nat)
    requires 0 < i <= |lists|
    ensures Offset(lists, i) == |lists[0]| + Offset(lists[1..], i - 1)
    decreases i
  {
    if i > 1 {
      OffsetTail(lists, i - 1);
    }
  }

  lemma {:induction false} OffsetIncreases<T>(lists: seq<seq<T>>, i: nat, k: nat)
    requires i < k <= |lists|
    ensures Offset(lists, i) + |lists[i]| <= Offset(lists, k)
    decreases k
  {
    if i + 1 < k {
      OffsetIncreases(lists, i, k - 1);
    }
  }

  lemma {:induction false} FlatLength<T>(lists: seq<seq<T>>)
    ensures |Flat(lists)| == Offset(lists, |lists|)
    decreases |lists|
  {
    if lists != [] {
      FlatLength(lists[1..]);
      OffsetTail(lists, |lists|);
    }
  }

  /** Device j of platform i stands at its number in the flat sequence. */
  lemma {:induction false} FlatAt<T>(lists: seq<seq<T>>, pos: int, i: nat, j: nat)
    requires At(lists, pos, i, j)
    ensures 0 <= pos < |Flat(lists)| && Flat(lists)[pos] == lists[i][j]
    decreases i
  {
    if i > 0 {
      OffsetTail(lists, i);
      FlatAt(lists[1..], pos - |lists[0]|, i - 1, j);
    }
  }

  /** The number of a pair (i, j), compared in lexicographic order. */
  lemma NumbersAreOrdered<T>(lists: seq<seq<T>>, pos: int, i: nat, j: nat, pos': int, i': nat, j': nat)
    requires At(lists, pos, i, j) && At(lists, pos', i', j')
    ensures pos < pos' <==> i < i' || (i == i' && j < j')
    ensures pos == pos' <==> i == i' && j == j'
  {
    if i < i' {
      OffsetIncreases(lists, i, i');
    } else if i' < i {
      OffsetIncreases(lists, i', i);
    }
  }

  /** Every number below the total belongs to some pair. */
  lemma {:induction false} NumberHasPair<T>(lists: seq<seq<T>>, pos: nat) returns (i: nat, j: nat)
    requires pos < |Flat(lists)|
    ensures At(lists, pos, i, j)
    decreases |lists|
  {
    if pos < |lists[0]| {
      i, j := 0, pos;
    } else {
      i, j := NumberHasPair(lists[1..], pos - |lists[0]|);
      i := i + 1;
      OffsetTail(lists, i);
    }
  }

  /** Flat device index: the numbers from 0 up to the total correspond one to one to the pairs
      (platform, device). */
  lemma NumberingIsBijection<T>(lists: seq<seq<T>>, pos: int)
    ensures (exists i: nat, j: nat :: At(lists, pos, i, j)) <==> 0 <= pos < Offset(lists, |lists|)
    ensures forall i: nat, j: nat, i': nat, j': nat ::
      At(lists, pos, i, j) && At(lists, pos, i', j') ==> i == i' && j == j'
  {
    FlatLength(lists);
    if 0 <= pos < |Flat(lists)| {
      var i, j := NumberHasPair(lists, pos);
    }
    forall i: nat, j: nat | At(lists, pos, i, j)
      ensures 0 <= pos < |Flat(lists)|
    {
      FlatAt(lists, pos, i, j);
    }
    forall i: nat, j: nat, i': nat, j': nat | At(lists, pos, i, j) && At(lists, pos, i', j')
      ensures i == i' && j == j'
    {
      NumbersAreOrdered(lists, pos, i, j, pos, i', j');
    }
  }

  /** The flat sequence puts the lists of the platforms one after another and drops nothing. */
  lemma {:induction false} FlatConcat<T>(ks: seq<seq<T>>, ls: seq<seq<T>>)
    ensures Flat(ks + ls) == Flat(ks) + Flat(ls)
    ensures |ls| == 1 ==> Flat(ls) == ls[0]
    decreases |ks|
  {
    if ks == [] {
      assert ks + ls == ls;
    } else {
      assert (ks + ls)[1..] == ks[1..] + ls;
      FlatConcat(ks[1..], ls);
    }
  }

  /** Every device of every platform has a number: its place after the devices of the platforms before. */
  lemma NumberOfPair<T>(lists: seq<seq<T>>, i: nat, j: nat)
    requires i < |lists| && j < |lists[i]|
    ensures var pos := |Flat(lists[..i])| + j;
      At(lists, pos, i, j) && pos < |Flat(lists)| && Flat(lists)[pos] == lists[i][j]
  {
    FlatLength(lists[..i]);
    OffsetPrefix(lists, i, i);
    FlatAt(lists, Offset(lists, i) + j, i, j);
  }

  // ---------- the listing ----------

  /** One line of OpenCLMain::listDevices. */
  datatype Line<T> = PlatformLine(i: nat) | DeviceLine(number: nat, device: T)

  function DeviceLines<T>(devices: seq<T>, first: nat): (ls: seq<Line<T>>)
    ensures |ls| == |devices|
  {
    seq(|devices|, j requires 0 <= j < |devices| => DeviceLine(first + j, devices[j]))
  }

  /** The lines printed for the first n platforms. */
  function Listing<T>(lists: seq<seq<T>>, n: nat): seq<Line<T>>
    requires n <= |lists|
  {
    if n == 0 then []
    else Listing(lists, n - 1) + [PlatformLine(n - 1)] + DeviceLines(lists[n - 1], Offset(lists, n - 1))
  }

  lemma {:induction false} ListingLength<T>(lists: seq<seq<T>>, n: nat)
    requires n <= |lists|
    ensures |Listing(lists, n)| == Offset(lists, n) + n
    decreases n
  {
    if n > 0 {
      ListingLength(lists, n - 1);
    }
  }

  /** The heading of platform i comes after i headings and the devices of those platforms. */
  lemma {:induction false} HeadingAt<T>(lists: seq<seq<T>>, n: nat, i: nat)
    requires i < n <= |lists|
    ensures |Listing(lists, n)| == Offset(lists, n) + n
    ensures Offset(lists, i) + i + |lists[i]| < |Listing(lists, n)|
    ensures Listing(lists, n)[Offset(lists, i) + i] == PlatformLine(i)
    decreases n
  {
    ListingLength(lists, n - 1);
    if i < n - 1 {
      HeadingAt(lists, n - 1, i);
    }
  }

  /** Device j of platform i is line j below that heading, under the number of the pair. */
  lemma {:induction false} DeviceAt<T>(lists: seq<seq<T>>, n: nat, i: nat, j: nat)
    requires i < n <= |lists| && j < |lists[i]|
    ensures Offset(lists, i) + i + 1 + j < |Listing(lists, n)|
    ensures Listing(lists, n)[Offset(lists, i) + i + 1 + j] == DeviceLine(Offset(lists, i) + j, lists[i][j])
    decreases n
  {
    ListingLength(lists, n - 1);
    if i < n - 1 {
      DeviceAt(lists, n - 1, i, j);
    }
  }

  /** The devices of a listing, in the order of their lines. */
  function Listed<T>(lines: seq<Line<T>>): seq<(nat, T)> {
    if lines == [] then []
    else
      var before, last := Listed(lines[..|lines| - 1]), lines[|lines| - 1];
      match last
      case PlatformLine(_) => before
      case DeviceLine(number, device) => before + [(number, device)]
  }

  function Numbered<T>(devices: seq<T>, first: nat): (ns: seq<(nat, T)>)
    ensures |ns| == |devices|
  {
    seq(|devices|, j requires 0 <= j < |devices| => (first + j, devices[j]))
  }

  lemma {:induction false} ListedAppend<T>(ks: seq<Line<T>>, ls: seq<Line<T>>)
    ensures Listed(ks + ls) == Listed(ks) + Listed(ls)
    decreases |ls|
  {
    if ls == [] {
      assert ks + ls == ks;
    } else {
      assert (ks + ls)[..|ks + ls| - 1] == ks + ls[..|ls| - 1];
      ListedAppend(ks, ls[..|ls| - 1]);
    }
  }

  lemma {:induction false} ListedDevices<T>(devices: seq<T>, first: nat)
    ensures Listed(DeviceLines(devices, first)) == Numbered(devices, first)
    decreases |devices|
  {
    if devices != [] {
      var before := devices[..|devices| - 1];
      ListedDevices(before, first);
      assert DeviceLines(devices, first)[..|devices| - 1] == DeviceLines(before, first);
    }
  }

  lemma {:induction false} FlatLast<T>(lists: seq<seq<T>>)
    requires lists != []
    ensures Flat(lists) == Flat(lists[..|lists| - 1]) + lists[|lists| - 1]
    decreases |lists|
  {
    if |lists| > 1 {
      FlatLast(lists[1..]);
      assert lists[1..][..|lists| - 2] == lists[..|lists| - 1][1..];
    } else {
      assert lists[1..] == [] && lists[..0] == [];
    }
  }

  lemma {:induction false} OffsetPrefix<T>(lists: seq<seq<T>>, n: nat, i: nat)
    requires i <= n <= |lists|
    ensures Offset(lists[..n], i) == Offset(lists, i)
    decreases i
  {
    if i > 0 {
      OffsetPrefix(lists, n, i - 1);
    }
  }

  lemma NumberedAppend<T>(ds: seq<T>, es: seq<T>)
    ensures Numbered(ds + es, 0) == Numbered(ds, 0) + Numbered(es, |ds|)
  {
  }

  lemma {:induction false} ListedPrefix<T>(lists: seq<seq<T>>, n: nat)
    requires n <= |lists|
    ensures Listed(Listing(lists, n)) == Numbered(Flat(lists[..n]), 0)
    decreases n
  {
    if n > 0 {
      var devices, first := lists[n - 1], Offset(lists, n - 1);
      ListedPrefix(lists, n - 1);
      ListedAppend(Listing(lists, n - 1), [PlatformLine(n - 1)]);
      ListedAppend(Listing(lists, n - 1) + [PlatformLine(n - 1)], DeviceLines(devices, first));
      ListedDevices(devices, first);
      assert lists[..n][..n - 1] == lists[..n - 1];
      FlatLast(lists[..n]);
      FlatLength(lists[..n - 1]);
      OffsetPrefix(lists, n - 1, n - 1);
      NumberedAppend(Flat(lists[..n - 1]), devices);
      hide Numbered, DeviceLines, Listed, Flat, Offset;
    }
  }

  /** The listing names every device once, under the numbers 0, 1, 2, ... that look it up. */
  lemma ListingAgrees<T>(lists: seq<seq<T>>)
    ensures Listed(Listing(lists, |lists|)) == Numbered(Flat(lists), 0)
  {
    ListedPrefix(lists, |lists|);
    assert lists[..|lists|] == lists;
  }

  /** The platform whose heading stands last among the first k lines, or -1. */
  function Heading<T>(lines: seq<Line<T>>, k: nat): int
    requires k <= |lines|
  {
    if k == 0 then -1 else if lines[k - 1].PlatformLine? then lines[k - 1].i else Heading(lines, k - 1)
  }

  lemma {:induction false} HeadingPrefix<T>(ks: seq<Line<T>>, ls: seq<Line<T>>, k: nat)
    requires k <= |ks|
    ensures Heading(ks + ls, k) == Heading(ks, k)
    decreases k
  {
    if k > 0 {
      HeadingPrefix(ks, ls, k - 1);
    }
  }

  lemma {:induction false} HeadingOfLast<T>(lists: seq<seq<T>>, n: nat, j: nat)
    requires 0 < n <= |lists| && j <= |lists[n - 1]|
    ensures |Listing(lists, n)| == |Listing(lists, n - 1)| + 1 + |lists[n - 1]|
    ensures Heading(Listing(lists, n), |Listing(lists, n - 1)| + 1 + j) == n - 1
    decreases j
  {
    if j > 0 {
      HeadingOfLast(lists, n, j - 1);
    }
  }

  /** A device is listed under the heading of the platform that its number belongs to. */
  lemma {:induction false} ListedUnderPlatform<T>(lists: seq<seq<T>>, n: nat, k: nat) returns (i: nat, j: nat)
    requires n <= |lists| && k < |Listing(lists, n)| && Listing(lists, n)[k].DeviceLine?
    ensures var line := Listing(lists, n)[k];
      Heading(Listing(lists, n), k) == i && At(lists, line.number, i, j) && line.device == lists[i][j]
    decreases n
  {
    var before := Listing(lists, n - 1);
    if k < |before| {
      i, j := ListedUnderPlatform(lists, n - 1, k);
      HeadingPrefix(before, [PlatformLine(n - 1)] + DeviceLines(lists[n - 1], Offset(lists, n - 1)), k);
      assert Listing(lists, n) == before + ([PlatformLine(n - 1)] + DeviceLines(lists[n - 1], Offset(lists, n - 1)));
    } else {
      i, j := n - 1, k - |before| - 1;
      HeadingOfLast(lists, n, j);
    }
  }
}
