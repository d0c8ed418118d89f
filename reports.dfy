/**
 * A reported point of interest: where it is, what it is, when it was reported, and how many
 * users confirmed or refuted it (AbstractReportedPoi and the legacy SimplePOI).
 */
module Reports {
  import opened Numbers

  /**
   * The value of a reported POI. Dafny's `==` on it is AbstractReportedPoi's `equals`: same
   * latitude, longitude, type, date and both counters. `K` is the enum of types (PoiType, or
   * EventType for the legacy POIs, whose x and y are kept in `lat` and `lon`). The legacy
   * SimplePOI keeps Object's identity `equals`; for it `==` is value equality, which holds for
   * more pairs than identity does.
   */
  datatype Report<K> = Report(lat: real, lon: real, kind: K, date: int, confirmations: int32, refutations: int32)

  /** The ingredients of hashCode that come from library classes: Double, the enum constant and Date. */
  datatype FieldHashes<!K> = FieldHashes(ofDouble: real -> int32, ofKind: K -> int32, ofDate: int -> int32)

  /** One step of the `hash = 29 * hash + field` chain, in int arithmetic. */
  function Mix(hash: int32, field: int32): int32 {
    Wrap(29 * hash as int + field as int)
  }

  /** AbstractReportedPoi.hashCode: the chain over the six fields, seeded with 3. */
  function HashOf<K>(p: Report<K>, h: FieldHashes<K>): int32 {
    var h4 := Mix(Mix(Mix(Mix(3, h.ofDouble(p.lat)), h.ofDouble(p.lon)), h.ofKind(p.kind)), h.ofDate(p.date));
    Mix(Mix(h4, p.confirmations), p.refutations)
  }

  /**
   * One more confirmation always changes the hash code: a POI whose counters are updated
   * while it sits in a hash-based collection is no longer found there.
   */
  lemma ConfirmationChangesHash<K>(p: Report<K>, h: FieldHashes<K>)
    ensures HashOf(p.(confirmations := Inc(p.confirmations)), h) != HashOf(p, h)
  {
    var h4 := Mix(Mix(Mix(Mix(3, h.ofDouble(p.lat)), h.ofDouble(p.lon)), h.ofKind(p.kind)), h.ofDate(p.date));
    var a := Mix(h4, p.confirmations);
    var b := Mix(h4, Inc(p.confirmations));
    MixShift(h4, p.confirmations, Inc(p.confirmations), 1);
    MixShift(p.refutations, a, b, 1);
    var x := Mix(a, p.refutations);
    var y := Mix(b, p.refutations);
    NotCongruent(x, y);
  }

  lemma NotCongruent(x: int32, y: int32)
    requires (y as int - x as int - 29) % 0x1_0000_0000 == 0
    ensures y != x
  {
  }

  /** Mixing two fields that differ by `d` (modulo 2^32) into the same hash gives results that differ by `d`. */
  lemma MixShift(hash: int32, f: int32, g: int32, d: int)
    ensures (g as int - f as int - d) % 0x1_0000_0000 == 0 ==> (Mix(hash, g) as int - Mix(hash, f) as int - d) % 0x1_0000_0000 == 0
    ensures (g as int - f as int - d) % 0x1_0000_0000 == 0 ==> (Mix(g, hash) as int - Mix(f, hash) as int - 29 * d) % 0x1_0000_0000 == 0
  {
    var u := Mix(hash, g) as int - (29 * hash as int + g as int);
    var v := Mix(hash, f) as int - (29 * hash as int + f as int);
    var w := Mix(g, hash) as int - (29 * g as int + hash as int);
    var z := Mix(f, hash) as int - (29 * f as int + hash as int);
    var e := g as int - f as int - d;
    if e % 0x1_0000_0000 == 0 {
      Congruence(u, v, e, 1);
      assert Mix(hash, g) as int - Mix(hash, f) as int - d == u - v + 1 * e;
      Congruence(w, z, e, 29);
      assert Mix(g, hash) as int - Mix(f, hash) as int - 29 * d == w - z + 29 * e;
    }
  }

  /** Multiples of 2^32 are closed under subtraction and scaled addition. */
  lemma Congruence(p: int, q: int, r: int, k: int)
    requires p % 0x1_0000_0000 == 0 && q % 0x1_0000_0000 == 0 && r % 0x1_0000_0000 == 0
    ensures (p - q + k * r) % 0x1_0000_0000 == 0
  {
    var M := 0x1_0000_0000;
    var P, Q, R := p / M, q / M, r / M;
    assert p == P * M && q == Q * M && r == R * M;
    assert k * r == (k * R) * M;
    assert p - q + k * r == (P - Q + k * R) * M;
  }

  /** An AbstractReportedPoi object: position, type and date are final; the two counters are set in place. */
  class ReportedPoi<K(==)> {
    const lat: real
    const lon: real
    const kind: K
    const date: int
    var confirmations: int32
    var refutations: int32

    /** The object's current value. */
    function Value(): Report<K>
      reads this
    {
      Report(lat, lon, kind, date, confirmations, refutations)
    }

    /** A new report starts with no confirmation and no refutation. */
    constructor (lat: real, lon: real, kind: K, date: int)
      ensures Value() == Report(lat, lon, kind, date, 0, 0)
    {
      this.lat := lat;
      this.lon := lon;
      this.kind := kind;
      this.date := date;
      confirmations := 0;
      refutations := 0;
    }

    method SetConfirmations(confirmations: int32)
      modifies this`confirmations
      ensures Value() == old(Value()).(confirmations := confirmations)
    {
      this.confirmations := confirmations;
    }

    method SetNbNotSeen(refutations: int32)
      modifies this`refutations
      ensures Value() == old(Value()).(refutations := refutations)
    {
      this.refutations := refutations;
    }

    /** equals: false for null, otherwise the field-by-field comparison. */
    method Equals(other: ReportedPoi?<K>) returns (eq: bool)
      ensures eq <==> other != null && other.Value() == Value()
    {
      if other == null {
        return false;
      }
      if lat != other.lat || lon != other.lon {
        return false;
      }
      if kind != other.kind || date != other.date {
        return false;
      }
      eq := confirmations == other.confirmations && refutations == other.refutations;
    }

    /** hashCode, computed step by step. */
    method HashCode(h: FieldHashes<K>) returns (code: int32)
      ensures code == HashOf(Value(), h)
    {
      code := 3;
      code := Mix(code, h.ofDouble(lat));
      code := Mix(code, h.ofDouble(lon));
      code := Mix(code, h.ofKind(kind));
      code := Mix(code, h.ofDate(date));
      code := Mix(code, confirmations);
      code := Mix(code, refutations);
    }
  }

  /**
   * Objects that equals accepts have equal hash codes: hashCode reads only the six fields that
   * equals compares, so this holds by construction.
   */
  lemma HashConsistentWithEquals<K>(a: Report<K>, b: Report<K>, h: FieldHashes<K>)
    requires a.lat == b.lat && a.lon == b.lon && a.kind == b.kind && a.date == b.date
    requires a.confirmations == b.confirmations && a.refutations == b.refutations
    ensures HashOf(a, h) == HashOf(b, h)
  {
  }
}
