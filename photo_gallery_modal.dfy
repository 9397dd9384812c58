/**
 * Index arithmetic of the photo gallery modal: the previous and next buttons (and the arrow
 * keys) wrap around the image list. `n` is `images.length`, `i` the current index.
 */
module PhotoGalleryModal {

  /** `handlePrevious`: one back, wrapping from the first image to the last. */
  function Previous(i: int, n: nat): (r: int)
    ensures 0 <= i < n ==> 0 <= r < n && r == (i + n - 1) % n
  {
    if i > 0 then i - 1 else n - 1
  }

  /** `handleNext`: one forward, wrapping from the last image to the first. */
  function Next(i: int, n: nat): (r: int)
    ensures 0 <= i < n ==> 0 <= r < n && r == (i + 1) % n
  {
    if i < n - 1 then i + 1 else 0
  }

  /** The wrap-around at both ends. */
  lemma Wraps(n: nat)
    requires 0 < n
    ensures Next(n - 1, n) == 0
    ensures Previous(0, n) == n - 1
  {
  }

  /** Previous and next undo each other. */
  lemma NextPreviousInverse(i: int, n: nat)
    requires 0 <= i < n
    ensures Next(Previous(i, n), n) == i
    ensures Previous(Next(i, n), n) == i
  {
  }

  /** Pressing next `k` times. */
  function NextTimes(i: int, n: nat, k: nat): (r: int)
    ensures 0 <= i < n ==> 0 <= r < n
  {
    if k == 0 then i else Next(NextTimes(i, n, k - 1), n)
  }

  /** Pressing next `k` times moves `k` places round the ring. */
  lemma {:induction false} NextTimesIsRotation(i: int, n: nat, k: nat)
    requires 0 <= i < n
    ensures NextTimes(i, n, k) == (i + k) % n
  {
    if k > 0 {
      NextTimesIsRotation(i, n, k - 1);
      var j := (i + k - 1) % n;
      assert NextTimes(i, n, k) == (j + 1) % n;
      ModSucc(i + k - 1, n);
    }
  }

  lemma ModSucc(a: nat, n: nat)
    requires 0 < n
    ensures (a % n + 1) % n == (a + 1) % n
  {
    var q, m := a / n, a % n;
    assert a == q * n + m;
    if m + 1 == n {
      ModUnique(a + 1, n, q + 1, 0);
      ModUnique(m + 1, n, 1, 0);
    } else {
      ModUnique(a + 1, n, q, m + 1);
      ModUnique(m + 1, n, 0, m + 1);
    }
  }

  /** Division with remainder has only one answer. */
  lemma ModUnique(a: int, n: int, q: int, m: int)
    requires 0 < n && 0 <= m < n && a == q * n + m
    ensures a % n == m
  {
    var q0, m0 := a / n, a % n;
    assert a == q0 * n + m0;
    var d := q - q0;
    assert d * n == m0 - m by {
      assert q * n - q0 * n == (q - q0) * n;
    }
    if d > 0 {
      assert d * n >= n by { assert d * n == (d - 1) * n + n; Nonneg(d - 1, n); }
    } else if d < 0 {
      assert -d * n >= n by { assert -d * n == (-d - 1) * n + n; Nonneg(-d - 1, n); }
    }
  }

  lemma Nonneg(a: int, b: int)
    requires 0 <= a && 0 <= b
    ensures 0 <= a * b
  {
  }

  /** Pressing next once per image comes back to the starting image. */
  lemma FullCircle(i: int, n: nat)
    requires 0 <= i < n
    ensures NextTimes(i, n, n) == i
  {
    NextTimesIsRotation(i, n, n);
    ModUnique(i + n, n, 1, i);
  }

  /** With no images, previous asks for index -1 and next for index 0, neither of which exists. */
  lemma EmptyGalleryLeavesRange()
    ensures Previous(0, 0) == -1
    ensures Next(0, 0) == 0
  {
  }
}
