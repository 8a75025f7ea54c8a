// Version numbers packed into 32-bit words.  Every place that picks the latest title
// compares the words; these lemmas say why that compares the versions.
module Versions {
  import opened Words
  import Align

  /** System versions: six bits of major, six of minor, four of micro, sixteen of relstep. */
  datatype SystemVersion = SystemVersion(major: nat, minor: nat, micro: nat, relstep: nat)

  predicate SystemFits(v: SystemVersion)
  {
    v.major < 0x40 && v.minor < 0x40 && v.micro < 0x10 && v.relstep < 0x1_0000
  }

  function PackSystem(v: SystemVersion): (r: u32)
    requires SystemFits(v)
  {
    ((v.major * 0x40 + v.minor) * 0x10 + v.micro) * 0x1_0000 + v.relstep
  }

  function UnpackSystem(value: u32): (v: SystemVersion)
    ensures SystemFits(v)
  {
    var high := value / 0x1_0000;
    SystemVersion(high / 0x10 / 0x40, high / 0x10 % 0x40, high % 0x10, value % 0x1_0000)
  }

  /** Since system version 3.0.0 the relstep is read as two bytes, the major one above the minor one. */
  function RelstepParts(v: SystemVersion): (nat, nat) { (v.relstep / 0x100, v.relstep % 0x100) }

  predicate SystemBefore(a: SystemVersion, b: SystemVersion)
  {
    a.major < b.major ||
    (a.major == b.major &&
      (a.minor < b.minor ||
       (a.minor == b.minor && (a.micro < b.micro || (a.micro == b.micro && a.relstep < b.relstep)))))
  }

  lemma SystemRoundTrip(v: SystemVersion)
    requires SystemFits(v)
    ensures UnpackSystem(PackSystem(v)) == v
  {
    Field((v.major * 0x40 + v.minor) * 0x10 + v.micro, 0x1_0000, v.relstep);
    Field(v.major * 0x40 + v.minor, 0x10, v.micro);
    Field(v.major, 0x40, v.minor);
  }

  /** A field below the others comes out again, and so do the others. */
  lemma Field(high: nat, width: nat, low: nat)
    requires low < width
    ensures (high * width + low) / width == high && (high * width + low) % width == low
  {
    Align.Quotient(high * width + low, width, high, low);
  }

  /** Where the fields are in the word. */
  lemma SystemFields(v: SystemVersion)
    requires SystemFits(v)
    ensures PackSystem(v) == v.major * 0x400_0000 + v.minor * 0x10_0000 + v.micro * 0x1_0000 + v.relstep
  {
  }

  lemma SystemRoundTripBack(value: u32)
    ensures PackSystem(UnpackSystem(value)) == value
  {
  }

  lemma SystemOrder(a: SystemVersion, b: SystemVersion)
    requires SystemFits(a) && SystemFits(b)
    ensures PackSystem(a) < PackSystem(b) <==> SystemBefore(a, b)
    ensures PackSystem(a) == PackSystem(b) <==> a == b
  {
  }

  /** Comparing relsteps compares their two bytes, the major one first. */
  lemma RelstepOrder(a: SystemVersion, b: SystemVersion)
    ensures var (x, y), (u, v) := RelstepParts(a), RelstepParts(b);
      a.relstep < b.relstep <==> x < u || (x == u && y < v)
  {
  }

  /** Application versions: the release above the private version. */
  datatype ApplicationVersion = ApplicationVersion(release: nat, private: nat)

  predicate ApplicationFits(v: ApplicationVersion) { v.release < 0x1_0000 && v.private < 0x1_0000 }

  function PackApplication(v: ApplicationVersion): (r: u32)
    requires ApplicationFits(v)
  {
    v.release * 0x1_0000 + v.private
  }

  function UnpackApplication(value: u32): (v: ApplicationVersion)
    ensures ApplicationFits(v)
  {
    ApplicationVersion(value / 0x1_0000, value % 0x1_0000)
  }

  lemma ApplicationOrder(a: u32, b: u32)
    ensures var x, y := UnpackApplication(a), UnpackApplication(b);
      a < b <==> x.release < y.release || (x.release == y.release && x.private < y.private)
    ensures PackApplication(UnpackApplication(a)) == a
  {
  }

  lemma ApplicationRoundTrip(v: ApplicationVersion)
    requires ApplicationFits(v)
    ensures UnpackApplication(PackApplication(v)) == v
  {
  }

  /** SDK versions: four bytes. */
  datatype SdkVersion = SdkVersion(major: nat, minor: nat, micro: nat, relstep: nat)

  predicate SdkFits(v: SdkVersion) { v.major < 0x100 && v.minor < 0x100 && v.micro < 0x100 && v.relstep < 0x100 }

  function PackSdk(v: SdkVersion): (r: u32)
    requires SdkFits(v)
  {
    ((v.major * 0x100 + v.minor) * 0x100 + v.micro) * 0x100 + v.relstep
  }

  function UnpackSdk(value: u32): (v: SdkVersion)
    ensures SdkFits(v)
  {
    var high := value / 0x100;
    SdkVersion(high / 0x100 / 0x100, high / 0x100 % 0x100, high % 0x100, value % 0x100)
  }

  lemma SdkRoundTrips(v: SdkVersion, value: u32)
    requires SdkFits(v)
    ensures UnpackSdk(PackSdk(v)) == v && PackSdk(UnpackSdk(value)) == value
  {
    Field((v.major * 0x100 + v.minor) * 0x100 + v.micro, 0x100, v.relstep);
    Field(v.major * 0x100 + v.minor, 0x100, v.micro);
    Field(v.major, 0x100, v.minor);
  }

  lemma SdkOrder(a: SdkVersion, b: SdkVersion)
    requires SdkFits(a) && SdkFits(b)
    ensures PackSdk(a) < PackSdk(b) <==>
      a.major < b.major ||
      (a.major == b.major &&
        (a.minor < b.minor ||
         (a.minor == b.minor && (a.micro < b.micro || (a.micro == b.micro && a.relstep < b.relstep)))))
  {
  }

  /** The four words that game card firmware is chosen by tell the major versions 4, 9, 11 and 12 from older ones. */
  lemma FirmwareThresholds(v: SystemVersion)
    requires SystemFits(v)
    ensures PackSystem(v) >= 268435456 <==> v.major >= 4
    ensures PackSystem(v) >= 603979776 <==> v.major >= 9
    ensures PackSystem(v) >= 738197504 <==> v.major >= 11
    ensures PackSystem(v) >= 805306368 <==> v.major >= 12
  {
  }
}
