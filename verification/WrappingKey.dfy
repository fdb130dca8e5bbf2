/** Resolving the wrapping key, cut at its awaits: every caller loads, adopts or makes it for itself. */
module WrappingKey {
  import opened Basics
  import DeviceIdentity

  type Kek = DeviceIdentity.Kek

  /** The row of the wrapping key, the row of its predecessor, and the module's cached handle. */
  datatype Keys = Keys(kek: Option<Kek>, legacy: Option<Kek>, cached: Option<Kek>)
  {
    /** The key the next session resolves. */
    function Next(): Option<Kek> { if kek.Some? then kek else legacy }
  }

  /** Where a call is suspended. HasKek: its row is read or written, its continuation has not run. */
  datatype Resolve = ReadingKek | ReadingLegacy | CopyingLegacy(kek: Kek) | SavingKek(kek: Kek) | HasKek(kek: Kek) | Resolved(kek: Kek)

  /** A segment of a call: the keys it leaves, and where it is suspended next unless it throws. */
  datatype Segment = Segment(keys: Keys, next: Option<Resolve>)

  function Begin(keys: Keys): Resolve { if keys.cached.Some? then Resolved(keys.cached.value) else ReadingKek }

  /** The next segment. An unreadable legacy row counts as an absent one, and a failed copy as a copy. */
  function ResolveStep(keys: Keys, at: Resolve, newKek: Kek, fault: bool): Segment {
    match at
    case ReadingKek =>
      if fault then Segment(keys, None) else Segment(keys, Some(if keys.kek.Some? then HasKek(keys.kek.value) else ReadingLegacy))
    case ReadingLegacy => Segment(keys, Some(if fault || keys.legacy == None then SavingKek(newKek) else CopyingLegacy(keys.legacy.value)))
    case CopyingLegacy(k) => Segment(if fault then keys else keys.(kek := Some(k)), Some(HasKek(k)))
    case SavingKek(k) => if fault then Segment(keys, None) else Segment(keys.(kek := Some(k)), Some(HasKek(k)))
    case HasKek(k) => Segment(keys.(cached := Some(k)), Some(Resolved(k)))
    case Resolved(_) => Segment(keys, Some(at))
  }

  /** One key is what the disk and the cache have; it is adopted when only the legacy row has it. */
  predicate Keeps(keys: Keys, k: Kek, adopting: bool) {
    && keys.Next() == Some(k) && (keys.cached.Some? ==> keys.cached.value == k)
    && (if adopting then keys.legacy == Some(k) else keys.kek.Some?)
  }

  /** A call that can only come out with that key. */
  predicate Fits(at: Resolve, k: Kek, adopting: bool) {
    match at
    case ReadingKek => true
    case ReadingLegacy => adopting
    case SavingKek(_) => false
    case _ => at.kek == k
  }

  /** A segment writes no other key, unless the legacy row could not be read. */
  lemma StepKeeps(keys: Keys, at: Resolve, newKek: Kek, fault: bool, k: Kek, adopting: bool)
    requires Keeps(keys, k, adopting) && Fits(at, k, adopting) && !(at.ReadingLegacy? && fault)
    ensures var seg := ResolveStep(keys, at, newKek, fault);
            Keeps(seg.keys, k, adopting) && seg.keys.legacy == keys.legacy && (seg.next.Some? ==> Fits(seg.next.value, k, adopting))
  {
  }
}
