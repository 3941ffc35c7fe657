// The firmware writer of ota_update.cpp: pieces of any size are collected into
// flash pages, each of them written once and in order, and the last one is filled
// up with the value of erased flash.

module OtaPager {
  import opened Bytes

  const PAGE_SIZE: nat := 1024

  datatype Outcome = OtaSuccess | OtaWifiFail

  function Filler(n: nat): (s: seq<byte>)
    ensures |s| == n
  {
    seq(n, _ => 0xff)
  }

  /** Whole pages that fit an area, in bytes. */
  function WholePages(area: nat): nat {
    area / PAGE_SIZE * PAGE_SIZE
  }

  /** An image filled up to a page with 0xff. */
  function Padded(image: seq<byte>): seq<byte> {
    var left := |image| % PAGE_SIZE;
    image + Filler(if left == 0 then 0 else PAGE_SIZE - left)
  }

  /** The image first, then 0xff, as the erased flash has it, up to the next page
      and no further. */
  lemma PaddedIs(image: seq<byte>)
    ensures var p := Padded(image);
      && |p| % PAGE_SIZE == 0 && |image| <= |p| < |image| + PAGE_SIZE && p[..|image|] == image
      && forall i :: |image| <= i < |p| ==> p[i] == 255
  {
  }

  lemma {:induction false} AddressesInOrder(n: nat)
    ensures |PageAddresses(n)| == n && forall i :: 0 <= i < n ==> PageAddresses(n)[i] == i * PAGE_SIZE
  {
    if n > 0 { AddressesInOrder(n - 1); }
  }

  function PageAddresses(n: nat): seq<nat> {
    if n == 0 then [] else PageAddresses(n - 1) + [(n - 1) * PAGE_SIZE]
  }

  /** Whether a write pages the image in so far: flash holds whole pages of it
      and the cache what is left over. Once the area is full data is dropped. */
  ghost predicate Paged(image: seq<byte>, area: nat, before: seq<byte>, flash: seq<byte>, cache: seq<byte>,
      leftSize: nat, lastAddr: nat, writes: seq<nat>)
  {
    && |before| == |flash| == area && |cache| == PAGE_SIZE && leftSize < PAGE_SIZE
    && lastAddr % PAGE_SIZE == 0 && lastAddr <= |image| && lastAddr <= WholePages(area)
    && flash == image[..lastAddr] + before[lastAddr..]
    && writes == PageAddresses(lastAddr / PAGE_SIZE)
    && (WholePages(area) <= |image| ==> lastAddr == WholePages(area))
    && (|image| <= WholePages(area) || lastAddr < WholePages(area) ==>
          leftSize == |image| - lastAddr && cache == image[lastAddr..] + Filler(PAGE_SIZE - leftSize))
  }

  lemma PageArithmetic(a: nat, area: nat)
    requires a % PAGE_SIZE == 0
    ensures a <= WholePages(area) ==> (a + PAGE_SIZE <= area <==> a < WholePages(area))
    ensures a <= area ==> a <= WholePages(area)
    ensures a < WholePages(area) ==> a + PAGE_SIZE <= WholePages(area)
    ensures (a + PAGE_SIZE) % PAGE_SIZE == 0 && (a + PAGE_SIZE) / PAGE_SIZE == a / PAGE_SIZE + 1
        && a / PAGE_SIZE * PAGE_SIZE == a
  {
  }

  /** Data that comes when the area is full changes nothing. */
  lemma AreaFull(image: seq<byte>, data: seq<byte>, area: nat, before: seq<byte>, flash: seq<byte>, cache: seq<byte>,
      leftSize: nat, lastAddr: nat, writes: seq<nat>)
    requires Paged(image, area, before, flash, cache, leftSize, lastAddr, writes) && lastAddr + PAGE_SIZE > area
    ensures Paged(image + data, area, before, flash, cache, leftSize, lastAddr, writes)
  {
    PageArithmetic(lastAddr, area);
    hide WholePages, Filler, PageAddresses;
    if |image + data| <= WholePages(area) { assert image + data == image; }
    assert (image + data)[..lastAddr] == image[..lastAddr];
  }

  /** Data that does not complete a page stays in the cache. */
  lemma DataCached(image: seq<byte>, data: seq<byte>, area: nat, before: seq<byte>, flash: seq<byte>, cache: seq<byte>,
      leftSize: nat, lastAddr: nat, writes: seq<nat>)
    requires Paged(image, area, before, flash, cache, leftSize, lastAddr, writes)
    requires lastAddr + PAGE_SIZE <= area && leftSize + |data| < PAGE_SIZE
    ensures Paged(image + data, area, before, flash, cache[..leftSize] + data + cache[leftSize + |data|..],
        leftSize + |data|, lastAddr, writes)
  {
    PageArithmetic(lastAddr, area);
    hide WholePages, PageAddresses;
    var all := image + data;
    assert all[..lastAddr] == image[..lastAddr];
    assert cache[..leftSize] == image[lastAddr..];
    assert cache[..leftSize] + data == all[lastAddr..];
    assert cache[leftSize + |data|..] == Filler(PAGE_SIZE - (leftSize + |data|));
  }

  /** Data that completes a page: the page is flashed, the rest cached. */
  lemma PageCompleted(image: seq<byte>, data: seq<byte>, area: nat, before: seq<byte>, flash: seq<byte>,
      cache: seq<byte>, leftSize: nat, lastAddr: nat, writes: seq<nat>)
    requires Paged(image, area, before, flash, cache, leftSize, lastAddr, writes)
    requires lastAddr + PAGE_SIZE <= area && PAGE_SIZE <= leftSize + |data| && |data| <= PAGE_SIZE
    ensures var copy := PAGE_SIZE - leftSize;
            var rest := data[copy..];
            Paged(image + data, area, before,
                  flash[..lastAddr] + (cache[..leftSize] + data[..copy]) + flash[lastAddr + PAGE_SIZE..],
                  rest + Filler(PAGE_SIZE)[|rest|..], leftSize + |data| - PAGE_SIZE, lastAddr + PAGE_SIZE,
                  writes + [lastAddr])
  {
    PageArithmetic(lastAddr, area);
    var all, copy := image + data, PAGE_SIZE - leftSize;
    var rest := data[copy..];
    PageFlashed(image, data, lastAddr, leftSize, before, flash, cache);
    assert rest == all[lastAddr + PAGE_SIZE..];
    assert Filler(PAGE_SIZE)[|rest|..] == Filler(PAGE_SIZE - |rest|);
    hide WholePages, Filler;
  }

  lemma PageFlashed(image: seq<byte>, data: seq<byte>, lastAddr: nat, leftSize: nat, before: seq<byte>,
      flash: seq<byte>, cache: seq<byte>)
    requires lastAddr + leftSize == |image| && leftSize < PAGE_SIZE == |cache| && PAGE_SIZE <= leftSize + |data|
    requires lastAddr + PAGE_SIZE <= |flash| == |before| && flash == image[..lastAddr] + before[lastAddr..]
    requires cache[..leftSize] == image[lastAddr..]
    ensures flash[..lastAddr] + (cache[..leftSize] + data[..PAGE_SIZE - leftSize]) + flash[lastAddr + PAGE_SIZE..]
         == (image + data)[..lastAddr + PAGE_SIZE] + before[lastAddr + PAGE_SIZE..]
  {
    assert flash[..lastAddr] == image[..lastAddr];
    assert flash[lastAddr + PAGE_SIZE..] == before[lastAddr + PAGE_SIZE..];
    assert image[..lastAddr] + image[lastAddr..] == image;
    assert (image + data)[..lastAddr + PAGE_SIZE]
        == image[..lastAddr] + (image[lastAddr..] + data[..PAGE_SIZE - leftSize]);
  }

  class Updater {
    const cache: array<byte>
    const flash: array<byte>
    var leftSize: nat
    var lastAddr: nat
    ghost var writes: seq<nat>

    ghost predicate Receiving(image: seq<byte>, before: seq<byte>)
      reads this, cache, flash
    {
      cache != flash && Paged(image, flash.Length, before, flash[..], cache[..], leftSize, lastAddr, writes)
    }

    constructor (area: array<byte>)
      ensures flash == area && fresh(cache) && cache.Length == PAGE_SIZE
    {
      cache := new byte[PAGE_SIZE];
      flash := area;
      leftSize, lastAddr, writes := 0, 0, [];
    }

    method FillCache()
      requires cache.Length == PAGE_SIZE
      modifies cache
      ensures cache[..] == Filler(PAGE_SIZE)
    {
      forall i | 0 <= i < cache.Length {
        cache[i] := 0xff;
      }
    }

    /** Copies data into the cache. */
    method Store(at: nat, data: seq<byte>)
      requires cache.Length == PAGE_SIZE && at + |data| <= PAGE_SIZE
      modifies cache
      ensures cache[..] == old(cache[..at]) + data + old(cache[at + |data|..])
    {
      forall i | 0 <= i < |data| {
        cache[at + i] := data[i];
      }
    }

    /** rda5981_write_partition, which may fail. */
    method WritePage(fails: bool) returns (status: int)
      requires cache != flash && cache.Length == PAGE_SIZE && lastAddr + PAGE_SIZE <= flash.Length
      modifies flash, this`writes
      ensures status == 0 <==> !fails
      ensures fails ==> flash[..] == old(flash[..]) && writes == old(writes)
      ensures !fails ==> flash[..] == old(flash[..lastAddr]) + cache[..] + old(flash[lastAddr + PAGE_SIZE..])
      ensures !fails ==> writes == old(writes) + [lastAddr]
    {
      if fails { return -1; }
      forall i | 0 <= i < PAGE_SIZE {
        flash[lastAddr + i] := cache[i];
      }
      writes := writes + [lastAddr];
      status := 0;
    }

    method DataStart()
      requires cache != flash && cache.Length == PAGE_SIZE
      modifies this, cache
      ensures Receiving([], flash[..])
    {
      FillCache();
      leftSize, lastAddr, writes := 0, 0, [];
      assert [] + Filler(PAGE_SIZE) == Filler(PAGE_SIZE);
    }

    /** Takes a piece of the image. */
    method Data(data: seq<byte>, fails: bool, ghost image: seq<byte>, ghost before: seq<byte>) returns (r: Outcome)
      requires Receiving(image, before) && |data| <= PAGE_SIZE
      modifies this, cache, flash
      ensures r == OtaWifiFail <==>
                fails && old(lastAddr) + PAGE_SIZE <= flash.Length && old(leftSize) + |data| >= PAGE_SIZE
      ensures r == OtaSuccess ==> Receiving(image + data, before)
      ensures r == OtaWifiFail ==>
        flash[..] == old(flash[..]) && writes == old(writes) && leftSize == old(leftSize) && lastAddr == old(lastAddr)
    {
      hide Paged, WholePages, Filler, PageAddresses;
      PagedBounds(image, before, this);
      if lastAddr + PAGE_SIZE <= flash.Length {
        if leftSize + |data| < PAGE_SIZE {
          DataCached(image, data, flash.Length, before, flash[..], cache[..], leftSize, lastAddr, writes);
          Store(leftSize, data);
          leftSize := leftSize + |data|;
        } else {
          PageCompleted(image, data, flash.Length, before, flash[..], cache[..], leftSize, lastAddr, writes);
          var copy := PAGE_SIZE - leftSize;
          Store(leftSize, data[..copy]);
          assert cache[..] == old(cache[..leftSize]) + data[..copy];
          var status := WritePage(fails);
          if status != 0 { return OtaWifiFail; }
          lastAddr := lastAddr + PAGE_SIZE;
          FillCache();
          Store(0, data[copy..]);
          assert cache[..] == data[copy..] + Filler(PAGE_SIZE)[|data| - copy..];
          leftSize := |data| - copy;
        }
      } else {
        AreaFull(image, data, flash.Length, before, flash[..], cache[..], leftSize, lastAddr, writes);
      }
      r := OtaSuccess;
    }

    /** Writes the last page, if there is one. Nothing tells the caller when
        the image was longer than the area. */
    method DataEnd(fails: bool, ghost image: seq<byte>, ghost before: seq<byte>) returns (r: Outcome)
      requires Receiving(image, before)
      modifies flash, this`writes
      ensures r == OtaWifiFail <==> fails && 0 < leftSize && lastAddr + PAGE_SIZE <= flash.Length
      ensures r == OtaWifiFail ==> flash[..] == old(flash[..]) && writes == old(writes)
      ensures r == OtaSuccess && |Padded(image)| <= flash.Length ==>
        && flash[..] == Padded(image) + before[|Padded(image)|..]
        && writes == PageAddresses(|Padded(image)| / PAGE_SIZE)
      ensures r == OtaSuccess && |Padded(image)| > flash.Length ==>
        && WholePages(flash.Length) <= |image|
        && flash[..] == image[..WholePages(flash.Length)] + before[WholePages(flash.Length)..]
    {
      hide Paged, WholePages, Filler, PageAddresses, Padded;
      PagedBounds(image, before, this);
      LastPage(image, flash.Length, before, flash[..], cache[..], leftSize, lastAddr, writes);
      if leftSize > 0 {
        if lastAddr + PAGE_SIZE <= flash.Length {
          var status := WritePage(fails);
          if status != 0 { return OtaWifiFail; }
        }
      }
      r := OtaSuccess;
    }
  }

  // A whole update.

  /** The image that the first n pieces make. */
  function Image(pieces: seq<seq<byte>>, n: nat): seq<byte>
    requires n <= |pieces|
  {
    if n == 0 then [] else Image(pieces, n - 1) + pieces[n - 1]
  }

  lemma {:induction false} ImageGrows(pieces: seq<seq<byte>>, n: nat, m: nat)
    requires n <= m <= |pieces|
    ensures |Image(pieces, n)| <= |Image(pieces, m)| && Image(pieces, n) == Image(pieces, m)[..|Image(pieces, n)|]
    decreases m
  {
    if n < m { ImageGrows(pieces, n, m - 1); }
  }

  /** With n bytes taken, m more reach the end of a page that the area has. */
  predicate Completes(n: nat, m: nat, area: nat) {
    n / PAGE_SIZE < (n + m) / PAGE_SIZE && (n / PAGE_SIZE + 1) * PAGE_SIZE <= area
  }

  /** One of the first n pieces completes a page whose write fails. */
  predicate WriteFails(pieces: seq<seq<byte>>, fails: seq<bool>, n: nat, area: nat)
    requires n <= |pieces| == |fails|
  {
    exists i :: 0 <= i < n && fails[i] && Completes(|Image(pieces, i)|, |pieces[i]|, area)
  }

  /** Where an image of n bytes stands in the flash and in the cache. */
  lemma PagedAt(image: seq<byte>, m: nat, area: nat, before: seq<byte>, flash: seq<byte>, cache: seq<byte>,
      leftSize: nat, lastAddr: nat, writes: seq<nat>)
    requires Paged(image, area, before, flash, cache, leftSize, lastAddr, writes) && m <= PAGE_SIZE
    ensures Completes(|image|, m, area) <==> lastAddr + PAGE_SIZE <= area && leftSize + m >= PAGE_SIZE
    ensures |image| % PAGE_SIZE > 0 && (|image| / PAGE_SIZE + 1) * PAGE_SIZE <= area <==>
              0 < leftSize && lastAddr + PAGE_SIZE <= area
  {
    var n := |image|;
    PageArithmetic(lastAddr, area);
    hide PageAddresses, Filler;
    if lastAddr + PAGE_SIZE <= area {
      assert n == lastAddr + leftSize;
      assert n / PAGE_SIZE * PAGE_SIZE == lastAddr && n % PAGE_SIZE == leftSize;
    } else {
      assert WholePages(area) <= n;
      assert (n / PAGE_SIZE + 1) * PAGE_SIZE > area;
    }
  }

  /** The flash holds the padded image, or as much of the image as the area has
      whole pages. */
  ghost predicate Flashed(image: seq<byte>, flash: seq<byte>, before: seq<byte>) {
    var area := |before|;
    if |Padded(image)| <= area then flash == Padded(image) + before[|Padded(image)|..]
    else WholePages(area) <= |image| && flash == image[..WholePages(area)] + before[WholePages(area)..]
  }

  /** The first whole pages of the image are in the flash, the rest is as it was. */
  ghost predicate PartlyFlashed(image: seq<byte>, flash: seq<byte>, before: seq<byte>, done: nat) {
    && done % PAGE_SIZE == 0 && done <= |image| && done <= |before|
    && flash == image[..done] + before[done..]
  }

  lemma StopsHere(pieces: seq<seq<byte>>, i: nat, before: seq<byte>, u: Updater)
    requires i <= |pieces| && u.Receiving(Image(pieces, i), before)
    ensures PartlyFlashed(Image(pieces, |pieces|), u.flash[..], before, u.lastAddr)
  {
    ImageGrows(pieces, i, |pieces|);
    hide PageAddresses, Filler, Image;
    assert Image(pieces, |pieces|)[..u.lastAddr] == Image(pieces, i)[..u.lastAddr];
  }

  /** Start, every piece, end: success exactly when no page write fails, and
      then the flash holds the padded image, or as much of the image as the area
      has whole pages. A failed update leaves whole pages of the image, in
      order, and nothing else is touched. */
  method Update(u: Updater, pieces: seq<seq<byte>>, fails: seq<bool>, endFails: bool) returns (r: Outcome)
    requires u.cache != u.flash && u.cache.Length == PAGE_SIZE
    requires |fails| == |pieces| && forall i :: 0 <= i < |pieces| ==> |pieces[i]| <= PAGE_SIZE
    modifies u, u.cache, u.flash
    ensures var image, area := Image(pieces, |pieces|), u.flash.Length;
      && (r == OtaWifiFail <==>
            || WriteFails(pieces, fails, |pieces|, area)
            || (endFails && |image| % PAGE_SIZE > 0 && (|image| / PAGE_SIZE + 1) * PAGE_SIZE <= area))
      && (r == OtaSuccess ==> Flashed(image, u.flash[..], old(u.flash[..])))
      && (r == OtaWifiFail ==> PartlyFlashed(image, u.flash[..], old(u.flash[..]), u.lastAddr))
  {
    hide Paged, Completes, Padded, WholePages, PageAddresses, PartlyFlashed;
    ghost var before, area := u.flash[..], u.flash.Length;
    u.DataStart();
    var i := 0;
    while i < |pieces|
      invariant 0 <= i <= |pieces| && u.Receiving(Image(pieces, i), before)
      invariant !WriteFails(pieces, fails, i, area)
    {
      ghost var image := Image(pieces, i);
      PagedAt(image, |pieces[i]|, area, before, u.flash[..], u.cache[..], u.leftSize, u.lastAddr, u.writes);
      StopsHere(pieces, i, before, u);
      r := u.Data(pieces[i], fails[i], image, before);
      if r != OtaSuccess { return; }
      i := i + 1;
    }
    ghost var image := Image(pieces, |pieces|);
    PagedAt(image, 0, area, before, u.flash[..], u.cache[..], u.leftSize, u.lastAddr, u.writes);
    StopsHere(pieces, i, before, u);
    r := u.DataEnd(endFails, image, before);
  }

  lemma PagedBounds(image: seq<byte>, before: seq<byte>, u: Updater)
    requires u.Receiving(image, before)
    ensures u.cache.Length == PAGE_SIZE && u.leftSize < PAGE_SIZE && u.lastAddr <= u.flash.Length == |before|
  {
  }

  lemma PaddedFrom(image: seq<byte>, addr: nat, left: nat)
    requires |image| == addr + left && addr % PAGE_SIZE == 0 && left < PAGE_SIZE
    ensures Padded(image) == image + Filler(if left == 0 then 0 else PAGE_SIZE - left)
  {
    assert |image| % PAGE_SIZE == left;
  }

  lemma LastWritten(image: seq<byte>, before: seq<byte>, flash: seq<byte>, cache: seq<byte>, leftSize: nat,
      lastAddr: nat)
    requires |image| == lastAddr + leftSize && lastAddr % PAGE_SIZE == 0 && 0 < leftSize < PAGE_SIZE
    requires lastAddr + PAGE_SIZE <= |flash| == |before| && flash == image[..lastAddr] + before[lastAddr..]
    requires cache == image[lastAddr..] + Filler(PAGE_SIZE - leftSize)
    ensures |Padded(image)| == lastAddr + PAGE_SIZE
    ensures flash[..lastAddr] + cache + flash[lastAddr + PAGE_SIZE..] == Padded(image) + before[lastAddr + PAGE_SIZE..]
  {
    PaddedFrom(image, lastAddr, leftSize);
    hide Padded;
    assert flash[..lastAddr] == image[..lastAddr];
    assert flash[lastAddr + PAGE_SIZE..] == before[lastAddr + PAGE_SIZE..];
    assert image[..lastAddr] + image[lastAddr..] == image;
    Assoc(image[..lastAddr], image[lastAddr..], Filler(PAGE_SIZE - leftSize));
  }

  /** An image longer than the whole pages of an area, padded, does not fit. */
  lemma PaddedTooLong(image: seq<byte>, area: nat)
    ensures |Padded(image)| <= area <==> |image| <= WholePages(area)
  {
    var n, pages := |image|, |image| / PAGE_SIZE;
    assert n == pages * PAGE_SIZE + n % PAGE_SIZE;
    assert WholePages(area) <= area < WholePages(area) + PAGE_SIZE;
  }

  /** An image one byte longer than an area of one page: the byte is lost. */
  lemma ByteLost()
    ensures var image: seq<byte> := seq(PAGE_SIZE + 1, _ => 7);
      |Padded(image)| > PAGE_SIZE && image[..WholePages(PAGE_SIZE)] != image
  {
    var image: seq<byte> := seq(PAGE_SIZE + 1, _ => 7);
    PaddedTooLong(image, PAGE_SIZE);
    assert |image[..WholePages(PAGE_SIZE)]| == PAGE_SIZE;
  }

  /** What writing the cache as the last page amounts to. */
  lemma LastPage(image: seq<byte>, area: nat, before: seq<byte>, flash: seq<byte>, cache: seq<byte>, leftSize: nat,
      lastAddr: nat, writes: seq<nat>)
    requires Paged(image, area, before, flash, cache, leftSize, lastAddr, writes)
    ensures lastAddr <= area && |cache| == PAGE_SIZE && |before| == area == |flash|
    ensures leftSize > 0 && lastAddr + PAGE_SIZE <= area ==>
      && |Padded(image)| <= area
      && flash[..lastAddr] + cache + flash[lastAddr + PAGE_SIZE..] == Padded(image) + before[|Padded(image)|..]
      && writes + [lastAddr] == PageAddresses(|Padded(image)| / PAGE_SIZE)
    ensures leftSize == 0 || lastAddr + PAGE_SIZE > area ==>
      if |Padded(image)| <= area
      then flash == Padded(image) + before[|Padded(image)|..] && writes == PageAddresses(|Padded(image)| / PAGE_SIZE)
      else WholePages(area) <= |image| && flash == image[..WholePages(area)] + before[WholePages(area)..]
  {
    PageArithmetic(lastAddr, area);
    PaddedTooLong(image, area);
    hide Padded, WholePages, Filler;
    if leftSize > 0 && lastAddr + PAGE_SIZE <= area {
      LastWritten(image, before, flash, cache, leftSize, lastAddr);
    } else if |image| <= WholePages(area) {
      PaddedFrom(image, lastAddr, leftSize);
      assert leftSize == 0 && image[..lastAddr] == image;
      assert image + Filler(0) == image;
    }
  }
}
