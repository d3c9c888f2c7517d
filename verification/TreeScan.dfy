/**
 The bounded scan of an output tree: a loop over a stack of directories against a recursive fold.

 The tree does not change during the scan, so reading a file within its limit gives its size, except
 that the bounded reader refuses a limit of zero.  `order` is how a directory listing is sorted.
 */
module TreeScan {
  import opened Common

  datatype Entry = File(size: nat) | Dir(children: seq<Entry>) | Link | Special

  datatype Usage = Usage(entries: nat, files: nat, bytes: nat, depth: nat)

  datatype Limits = Limits(entries: int, depth: int, fileBytes: int, totalBytes: int)

  const NOTHING := Usage(0, 0, 0, 0)

  function Plus(u: Usage, v: Usage): Usage {
    Usage(u.entries + v.entries, u.files + v.files, u.bytes + v.bytes, Max(u.depth, v.depth))
  }

  // ----- the recursive fold ---------------------------------------------------------------

  /** What an entry and everything below it uses; its own depth counts as one. */
  function Of(e: Entry): Usage
    decreases e, 0
  {
    match e
    case File(size) => Usage(1, 1, size, 1)
    case Dir(children) => var u := Fold(children); u.(entries := u.entries + 1, depth := u.depth + 1)
    case _ => Usage(1, 0, 0, 1)
  }

  function Fold(children: seq<Entry>): Usage
    decreases children, 1
  {
    if children == [] then NOTHING else Plus(Of(children[0]), Fold(children[1..]))
  }

  /** Only plain files of acceptable size and directories. */
  predicate Plain(e: Entry, maxFile: int)
    decreases e, 0
  {
    match e
    case File(size) => size <= maxFile && maxFile > 0
    case Dir(children) => AllPlain(children, maxFile)
    case _ => false
  }

  predicate AllPlain(children: seq<Entry>, maxFile: int)
    decreases children, 1
  {
    forall i :: 0 <= i < |children| ==> Plain(children[i], maxFile)
  }

  predicate WithinLimits(u: Usage, limits: Limits) {
    u.entries <= limits.entries && u.depth <= limits.depth && u.bytes <= limits.totalBytes
  }

  /** What the scan accepts. */
  predicate Acceptable(root: Entry, limits: Limits) {
    && limits.entries >= 0 && limits.depth >= 0 && limits.fileBytes >= 0 && limits.totalBytes >= 0
    && root.Dir? && AllPlain(root.children, limits.fileBytes) && WithinLimits(Fold(root.children), limits)
  }

  // ----- the order of a listing does not matter --------------------------------------------

  lemma {:induction false} FoldTakesOut(children: seq<Entry>, i: nat)
    requires i < |children|
    ensures Fold(children) == Plus(Of(children[i]), Fold(children[..i] + children[i + 1..]))
  {
    hide Of;
    var rest := children[..i] + children[i + 1..];
    if i == 0 {
      assert rest == children[1..];
    } else {
      FoldTakesOut(children[1..], i - 1);
      assert rest[0] == children[0] && rest[1..] == children[1..][..i - 1] + children[1..][i..];
    }
  }

  lemma WithoutOne(s: seq<Entry>, i: nat)
    requires i < |s|
    ensures multiset(s) == multiset(s[..i] + s[i + 1..]) + multiset{s[i]}
  {
    assert s == s[..i] + ([s[i]] + s[i + 1..]);
  }

  lemma {:induction false} FoldIgnoresOrder(a: seq<Entry>, b: seq<Entry>)
    requires multiset(a) == multiset(b)
    ensures Fold(a) == Fold(b) && |a| == |b|
  {
    hide Of;
    if a == [] {
      assert |multiset(b)| == 0;
    } else {
      assert a[0] in multiset(b);
      var i :| 0 <= i < |b| && b[i] == a[0];
      WithoutOne(a, 0);
      WithoutOne(b, i);
      assert a[..0] + a[1..] == a[1..];
      assert multiset(a[1..]) == multiset(a) - multiset{a[0]};
      FoldIgnoresOrder(a[1..], b[..i] + b[i + 1..]);
      FoldTakesOut(b, i);
    }
  }

  lemma PlainIgnoresOrder(a: seq<Entry>, b: seq<Entry>, maxFile: int)
    requires multiset(a) == multiset(b) && AllPlain(a, maxFile)
    ensures AllPlain(b, maxFile)
  {
    hide Plain;
    forall j | 0 <= j < |b|
      ensures Plain(b[j], maxFile)
    {
      assert b[j] in multiset(a);
    }
  }

  // ----- what is still to be counted -------------------------------------------------------

  /** A directory on the stack and its depth. */
  datatype Pending = Pending(children: seq<Entry>, depth: nat)

  function Below(p: Pending): Usage {
    var u := Fold(p.children);
    u.(depth := p.depth + u.depth)
  }

  function Outstanding(pending: seq<Pending>): Usage {
    if pending == [] then NOTHING else Plus(Outstanding(pending[..|pending| - 1]), Below(pending[|pending| - 1]))
  }

  /** An entry that has been counted but not looked at; `depth` is its own. */
  function Later(e: Entry, depth: nat): Usage {
    match e
    case File(size) => Usage(0, 1, size, depth)
    case Dir(children) => Below(Pending(children, depth))
    case _ => Usage(0, 0, 0, depth)
  }

  function Laters(children: seq<Entry>, depth: nat): Usage {
    if children == [] then NOTHING else Plus(Later(children[0], depth), Laters(children[1..], depth))
  }

  lemma {:induction false} Expand(children: seq<Entry>, depth: nat)
    ensures Below(Pending(children, depth)) == Plus(Usage(|children|, 0, 0, depth), Laters(children, depth + 1))
  {
    hide Of, Later;
    if children != [] {
      var e := children[0];
      LaterIsOf(e, depth);
      Expand(children[1..], depth);
    }
  }

  lemma LaterIsOf(e: Entry, depth: nat)
    ensures var u := Of(e);
      u.entries > 0 && u.depth > 0 && Later(e, depth + 1) == u.(entries := u.entries - 1, depth := depth + u.depth)
  {
  }

  lemma PlusMoves(a: Usage, b: Usage, c: Usage)
    ensures Plus(Plus(a, b), c) == Plus(a, Plus(b, c)) && Plus(a, Plus(b, c)) == Plus(b, Plus(a, c))
    ensures Plus(a, NOTHING) == a == Plus(NOTHING, a)
  {
  }

  lemma PlusSwaps(a: Usage, b: Usage, c: Usage, d: Usage)
    ensures Plus(Plus(Plus(a, b), c), d) == Plus(Plus(a, c), Plus(b, d))
  {
  }

  lemma LimitsAreMonotone(u: Usage, o: Usage, l: Usage, r: Usage, limits: Limits)
    requires WithinLimits(Plus(Plus(u, o), Plus(l, r)), limits)
    ensures WithinLimits(Plus(u, l), limits) && WithinLimits(u, limits)
  {
  }

  // ----- the scan --------------------------------------------------------------------------

  /** Sorting a listing loses and adds nothing. */
  ghost predicate Permutes(order: seq<Entry> -> seq<Entry>) { forall s :: multiset(order(s)) == multiset(s) }

  predicate PendingPlain(pending: seq<Pending>, maxFile: int) {
    forall i :: 0 <= i < |pending| ==> AllPlain(pending[i].children, maxFile)
  }

  predicate NoDeeper(pending: seq<Pending>, depth: nat) {
    forall i :: 0 <= i < |pending| ==> pending[i].depth <= depth
  }

  /** Counting a listing stops at the entry limit. */
  method CountListing(listing: seq<Entry>, entries: nat, maxEntries: int) returns (counted: Option<nat>)
    requires entries <= maxEntries
    ensures counted == if entries + |listing| <= maxEntries then Some(entries + |listing|) else None
  {
    var n := entries;
    for i := 0 to |listing|
      invariant n == entries + i <= maxEntries
    {
      n := n + 1;
      if n > maxEntries { return None; }
    }
    return Some(n);
  }

  /** One entry that is on the list: a directory goes on the stack, a file is counted, anything else and
      every exceeded limit fails. */
  method ScanEntry(e: Entry, depth: nat, done: Usage, pending: seq<Pending>, limits: Limits)
      returns (usage: Option<Usage>, stack: seq<Pending>)
    requires WithinLimits(done, limits) && NoDeeper(pending, done.depth)
    ensures usage.Some? ==> Plus(usage.value, Outstanding(stack)) == Plus(Plus(done, Outstanding(pending)), Later(e, depth))
    ensures usage.Some? ==> WithinLimits(usage.value, limits) && NoDeeper(stack, usage.value.depth) && |stack| <= |pending| + 1
    ensures usage.Some? ==> usage.value.entries == done.entries
    ensures usage.Some? ==> (Plain(e, limits.fileBytes) && PendingPlain(pending, limits.fileBytes)
                             <==> PendingPlain(stack, limits.fileBytes))
    ensures usage.None? ==> !Plain(e, limits.fileBytes) || !WithinLimits(Plus(done, Later(e, depth)), limits)
  {
    hide Fold, AllPlain;
    stack := pending;
    var u := done.(depth := Max(done.depth, depth));
    if depth > limits.depth { return None, stack; }
    match e
    case Dir(children) =>
      stack := pending + [Pending(children, depth)];
      assert stack[..|stack| - 1] == pending;
      return Some(u), stack;
    case File(size) =>
      if size > limits.fileBytes || done.bytes + size > limits.totalBytes { return None, stack; }
      if limits.fileBytes <= 0 { return None, stack; }  // the bounded reader wants a positive limit
      return Some(u.(bytes := u.bytes + size, files := u.files + 1)), stack;
    case _ =>
      return None, stack;
  }

  /** The loop over a sorted listing. */
  method ScanListing(listing: seq<Entry>, depth: nat, done: Usage, pending: seq<Pending>, limits: Limits)
      returns (usage: Option<Usage>, stack: seq<Pending>)
    requires WithinLimits(done, limits) && NoDeeper(pending, done.depth)
    ensures usage.Some? ==>
              Plus(usage.value, Outstanding(stack)) == Plus(Plus(done, Outstanding(pending)), Laters(listing, depth))
    ensures usage.Some? ==> WithinLimits(usage.value, limits) && NoDeeper(stack, usage.value.depth) && |stack| <= |pending| + |listing|
    ensures usage.Some? ==> usage.value.entries == done.entries
    ensures usage.Some? ==> (AllPlain(listing, limits.fileBytes) && PendingPlain(pending, limits.fileBytes)
                             <==> PendingPlain(stack, limits.fileBytes))
    ensures usage.None? ==>
              !AllPlain(listing, limits.fileBytes) || !WithinLimits(Plus(Plus(done, Outstanding(pending)), Laters(listing, depth)), limits)
  {
    hide Plain, Later, Outstanding, Plus, WithinLimits, NoDeeper;
    ghost var goal := Plus(Plus(done, Outstanding(pending)), Laters(listing, depth));
    var u, n := done, 0;
    stack := pending;
    assert listing[0..] == listing;
    while n < |listing|
      invariant 0 <= n <= |listing| && Plus(Plus(u, Outstanding(stack)), Laters(listing[n..], depth)) == goal
      invariant WithinLimits(u, limits) && NoDeeper(stack, u.depth) && |stack| <= |pending| + n && u.entries == done.entries
      invariant AllPlain(listing[..n], limits.fileBytes) && PendingPlain(pending, limits.fileBytes)
                <==> PendingPlain(stack, limits.fileBytes)
    {
      var e := listing[n];
      ghost var rest := Laters(listing[n + 1..], depth);
      assert listing[n..][0] == e && listing[n..][1..] == listing[n + 1..];
      PlusMoves(Plus(u, Outstanding(stack)), Later(e, depth), rest);
      var next, nextStack := ScanEntry(e, depth, u, stack, limits);
      if next.None? {
        if WithinLimits(goal, limits) {
          LimitsAreMonotone(u, Outstanding(stack), Later(e, depth), rest, limits);
        }
        return None, stack;
      }
      assert listing[..n + 1] == listing[..n] + [e];
      u, stack, n := next.value, nextStack, n + 1;
    }
    assert listing[..n] == listing && listing[n..] == [];
    PlusMoves(Plus(u, Outstanding(stack)), NOTHING, NOTHING);
    return Some(u), stack;
  }

  method Sort(listing: seq<Entry>, order: seq<Entry> -> seq<Entry>) returns (sorted: seq<Entry>)
    requires Permutes(order)
    ensures multiset(sorted) == multiset(listing)
  {
    sorted := order(listing);
  }

  /** One directory from the stack: its listing is counted, sorted and looked at. */
  method ScanDirectory(p: Pending, done: Usage, below: seq<Pending>, limits: Limits, order: seq<Entry> -> seq<Entry>)
      returns (usage: Option<Usage>, stack: seq<Pending>)
    requires Permutes(order)
    requires WithinLimits(done, limits) && NoDeeper(below, done.depth) && p.depth <= done.depth
    ensures usage.Some? ==> Plus(usage.value, Outstanding(stack)) == Plus(Plus(done, Outstanding(below)), Below(p))
    ensures usage.Some? ==> WithinLimits(usage.value, limits) && NoDeeper(stack, usage.value.depth)
    ensures usage.Some? ==> Outstanding(stack).entries + |stack| <= Outstanding(below).entries + Below(p).entries + |below|
    ensures usage.Some? ==> (AllPlain(p.children, limits.fileBytes) && PendingPlain(below, limits.fileBytes)
                             <==> PendingPlain(stack, limits.fileBytes))
    ensures usage.None? ==>
              !AllPlain(p.children, limits.fileBytes) || !WithinLimits(Plus(Plus(done, Outstanding(below)), Below(p)), limits)
  {
    hide Permutes, Fold, Laters, Outstanding, AllPlain, PendingPlain, NoDeeper;
    var listing := Sort(p.children, order);
    var count := Usage(|p.children|, 0, 0, p.depth);
    Expand(p.children, p.depth);
    Expand(listing, p.depth);
    FoldIgnoresOrder(listing, p.children);
    assert Below(p) == Plus(count, Laters(listing, p.depth + 1));
    var counted := CountListing(p.children, done.entries, limits.entries);
    if counted.None? { return None, below; }
    hide Below;
    PlusSwaps(done, count, Outstanding(below), Laters(listing, p.depth + 1));
    usage, stack := ScanListing(listing, p.depth + 1, done.(entries := counted.value), below, limits);
    if AllPlain(listing, limits.fileBytes) { PlainIgnoresOrder(listing, p.children, limits.fileBytes); }
    if AllPlain(p.children, limits.fileBytes) { PlainIgnoresOrder(p.children, listing, limits.fileBytes); }
  }

  lemma ScanStarts(children: seq<Entry>, maxFile: int)
    ensures var pending := [Pending(children, 0)];
      && Plus(NOTHING, Outstanding(pending)) == Fold(children) && NoDeeper(pending, 0)
      && (AllPlain(children, maxFile) <==> PendingPlain(pending, maxFile))
  {
    hide AllPlain, Fold;
    var pending := [Pending(children, 0)];
    assert pending[..0] == [] && pending[0].children == children;
    assert Outstanding(pending) == Plus(NOTHING, Below(pending[0]));
  }

  lemma ScanContinues(done: Usage, pending: seq<Pending>, limits: Limits)
    requires pending != [] && NoDeeper(pending, done.depth)
    ensures var p, below := pending[|pending| - 1], pending[..|pending| - 1];
      && Plus(done, Outstanding(pending)) == Plus(Plus(done, Outstanding(below)), Below(p))
      && Outstanding(pending).entries == Outstanding(below).entries + Below(p).entries
      && NoDeeper(below, done.depth) && p.depth <= done.depth
      && (PendingPlain(pending, limits.fileBytes)
          <==> AllPlain(p.children, limits.fileBytes) && PendingPlain(below, limits.fileBytes))
  {
    hide AllPlain, Below, Fold;
  }

  lemma ScanEnds(done: Usage, maxFile: int)
    ensures Plus(done, Outstanding([])) == done && PendingPlain([], maxFile)
  {
  }

  /** `scan_tree` succeeds exactly on acceptable trees, whatever the order of the listings, and returns
      what the fold counts. */
  method ScanTree(root: Entry, limits: Limits, order: seq<Entry> -> seq<Entry>) returns (usage: Option<Usage>)
    requires Permutes(order)
    ensures usage.Some? <==> Acceptable(root, limits)
    ensures usage.Some? ==> usage.value == Fold(root.children)
  {
    hide Permutes, Fold, AllPlain, Plus, Below, Outstanding, PendingPlain, NoDeeper;
    if limits.entries < 0 || limits.depth < 0 || limits.fileBytes < 0 || limits.totalBytes < 0 { return None; }
    if !root.Dir? { return None; }
    var done, pending := NOTHING, [Pending(root.children, 0)];
    ghost var total := Fold(root.children);
    ScanStarts(root.children, limits.fileBytes);
    while pending != []
      invariant total == Plus(done, Outstanding(pending)) && WithinLimits(done, limits) && NoDeeper(pending, done.depth)
      invariant AllPlain(root.children, limits.fileBytes) <==> PendingPlain(pending, limits.fileBytes)
      decreases Outstanding(pending).entries + |pending|
    {
      var directory, below := pending[|pending| - 1], pending[..|pending| - 1];
      ScanContinues(done, pending, limits);
      var next, stack := ScanDirectory(directory, done, below, limits, order);
      if next.None? { return None; }
      done, pending := next.value, stack;
    }
    ScanEnds(done, limits.fileBytes);
    return Some(done);
  }
}
