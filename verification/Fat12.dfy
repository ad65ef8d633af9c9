/** Reading a FAT12 image: twelve-bit table entries, the position of the parts of the volume, and the
    extraction of a file along its chain of clusters. The image is a sequence of bytes. */
module Fat12 {

  type Byte = bv8

  // ---- Twelve-bit entries ----

  /** `read_twelve_bits_twice` on the three bytes read. */
  function Decode(a: Byte, b: Byte, c: Byte): (n: (bv16, bv16)) {
    ((((b as bv16) & 0x0f) << 8) | (a as bv16), ((c as bv16) << 4) | (((b & 0xf0) >> 4) as bv16))
  }

  /** Two entries packed into three bytes, as the volume stores them. */
  function Pack(n: (bv16, bv16)): (r: (Byte, Byte, Byte)) {
    ((n.0 & 0xff) as Byte, (((n.0 >> 8) & 0x0f) | ((n.1 & 0x0f) << 4)) as Byte, ((n.1 >> 4) & 0xff) as Byte)
  }

  /** Decoding inverts packing, and packing inverts decoding. */
  lemma DecodeInvertsPack(n: (bv16, bv16))
    requires n.0 <= 0xfff && n.1 <= 0xfff
    ensures var r := Pack(n); Decode(r.0, r.1, r.2) == n
  {
    Low(n.0, n.1);
    High(n.0, n.1);
  }

  lemma Low(x: bv16, y: bv16)
    requires x <= 0xfff
    ensures (((((((x >> 8) & 0x0f) | ((y & 0x0f) << 4)) as Byte) as bv16) & 0x0f) << 8) |
        (((x & 0xff) as Byte) as bv16) == x
  {
  }

  lemma High(x: bv16, y: bv16)
    requires y <= 0xfff
    ensures ((((y >> 4) & 0xff) as Byte as bv16) << 4)
            | (((((((x >> 8) & 0x0f) | ((y & 0x0f) << 4)) as Byte) & 0xf0) >> 4) as bv16) == y
  {
  }

  lemma PackInvertsDecode(a: Byte, b: Byte, c: Byte)
    ensures Pack(Decode(a, b, c)) == (a, b, c)
  {
  }

  /** Entry `n` of a table at `base`, by the specification's rule: the sixteen bits at three halves of
      the index, their upper twelve for an odd one and their lower twelve for an even one. */
  function TableEntry(disk: seq<Byte>, base: nat, n: nat): (e: bv16)
    requires base + n + n / 2 + 1 < |disk|
  {
    var o := base + n + n / 2;
    var w := (disk[o] as bv16) | ((disk[o + 1] as bv16) << 8);
    if n % 2 == 1 then w >> 4 else w & 0xfff
  }

  lemma EvenEntry(a: Byte, b: Byte, c: Byte)
    ensures Decode(a, b, c).0 == ((a as bv16) | ((b as bv16) << 8)) & 0xfff
  {
  }

  lemma OddEntry(a: Byte, b: Byte, c: Byte)
    ensures Decode(a, b, c).1 == ((b as bv16) | ((c as bv16) << 8)) >> 4
  {
  }

  lemma GroupIs(disk: seq<Byte>, base: nat, g: nat)
    requires base + 3 * g + 3 <= |disk|
    ensures var o := base + 3 * g; var d := Decode(disk[o], disk[o + 1], disk[o + 2]);
            d.0 == TableEntry(disk, base, 2 * g) && d.1 == TableEntry(disk, base, 2 * g + 1)
  {
    hide Decode;
    var o := base + 3 * g;
    assert 2 * g + (2 * g) / 2 == 3 * g && (2 * g + 1) + (2 * g + 1) / 2 == 3 * g + 1;
    EvenEntry(disk[o], disk[o + 1], disk[o + 2]);
    OddEntry(disk[o], disk[o + 1], disk[o + 2]);
  }

  // ---- Where things are ----

  /** The boot sector's figures that the reader uses, in the widths it reads them in. */
  datatype Boot = Boot(bytesPerSector: nat, sectorsPerCluster: nat, reserved: nat, copies: nat, rootEntries: nat,
                       sectorsPerFat: nat)

  const BOOT_SIZE: nat := 512
  const ENTRY_SIZE: nat := 32
  const WORD: nat := 0x1_0000_0000

  predicate IsBoot(b: Boot) {
    && b.bytesPerSector < 0x1_0000 && b.reserved < 0x1_0000 && b.rootEntries < 0x1_0000 && b.sectorsPerFat < 0x1_0000
    && b.sectorsPerCluster < 0x100 && b.copies < 0x100
  }

  /** What is left of a number in a `uint32_t`. */
  function Wrap(n: int): (w: nat) { n % WORD }

  function BytesPerFat(b: Boot): (n: nat) { b.sectorsPerFat * b.bytesPerSector }

  function ClusterSize(b: Boot): (n: nat) { b.bytesPerSector * b.sectorsPerCluster }

  /** Where the first table starts. */
  function TableStart(b: Boot): (n: nat) { b.reserved * b.bytesPerSector }

  /** `base_address`: where the data clusters start. */
  function DataBase(b: Boot): (n: nat) {
    (b.reserved + b.sectorsPerFat * b.copies) * b.bytesPerSector + b.rootEntries * ENTRY_SIZE
  }

  /** Where the root directory starts. */
  function RootStart(b: Boot): (n: nat) { (b.reserved + b.sectorsPerFat * b.copies) * b.bytesPerSector }

  /** The source computes the size of a table as an `int` and the data base as a `uint32_t`. */
  predicate Addressable(b: Boot) {
    IsBoot(b) && 3 <= BytesPerFat(b) < 0x8000_0000 && DataBase(b) < WORD
  }

  /** The entries the reader keeps, those of the data clusters. */
  function Entries(b: Boot): (n: int) { BytesPerFat(b) * 2 / 3 - 2 }

  /** How many bytes the reader takes for one table: a first group, and one for every two entries. */
  function TableBytesRead(b: Boot): (n: int) { 3 + 3 * ((Entries(b) + 1) / 2) }

  /** The position of the sequential reader before the tables: the reserved sectors are skipped by an
      unsigned number of bytes. */
  function TablesAt(b: Boot): (p: nat) {
    b.bytesPerSector + Wrap((b.reserved - 1) * b.bytesPerSector)
  }

  /** The position of the sequential reader after the tables: the copies, too, are skipped by an
      unsigned number of bytes. */
  function CursorAfterTables(b: Boot): (p: int) {
    TablesAt(b) + TableBytesRead(b) + Wrap((b.copies - 1) * BytesPerFat(b))
  }

  lemma Small(n: int)
    ensures 0 <= n < WORD ==> Wrap(n) == n
    ensures n < 0 <= n + WORD ==> Wrap(n) == n + WORD
  {
  }

  lemma Product(a: nat, b: nat, m: nat, n: nat)
    requires a <= m && b <= n
    ensures a * b <= m * n
  {
    assert a * b <= m * b <= m * n by {
      Monotone(a, m, b);
      Monotone(b, n, m);
    }
  }

  lemma Monotone(a: nat, m: nat, k: nat)
    requires a <= m
    ensures a * k <= m * k && k * a <= k * m
  {
    assert (m - a) * k >= 0;
  }

  /** The tables are found exactly when there is a reserved sector; without one the reader goes on four
      gigabytes later. */
  lemma ReservedSkipped(b: Boot)
    requires IsBoot(b) && b.bytesPerSector > 0
    ensures TablesAt(b) == TableStart(b) <==> b.reserved >= 1
    ensures b.reserved == 0 ==> TablesAt(b) == WORD
  {
    var s: int, r: int := b.bytesPerSector, b.reserved;
    Small((r - 1) * s);
    if r >= 1 {
      Product(r - 1, s, 0xffff, 0xffff);
      assert r * s == (r - 1) * s + s;
    }
  }

  /** The boot sector, what is left of its sector, and the other reserved sectors. */
  method SkipReserved(b: Boot) returns (cursor: int)
    requires IsBoot(b)
    ensures cursor == TablesAt(b)
    ensures b.bytesPerSector > 0 ==> (cursor == TableStart(b) <==> b.reserved >= 1)
  {
    if b.bytesPerSector > 0 { ReservedSkipped(b); }
    cursor := BOOT_SIZE;
    cursor := cursor + (b.bytesPerSector - BOOT_SIZE);
    cursor := cursor + Wrap((b.reserved - 1) * b.bytesPerSector);
  }

  lemma GroupsRead(n: nat)
    requires n >= 3
    ensures var read := 3 + 3 * ((n * 2 / 3 - 2 + 1) / 2);
            n - 1 <= read <= n + 1 && (read == n <==> n % 3 == 0)
  {
    var q := n / 3;
    assert n % 3 == 0 ==> n * 2 / 3 == 2 * q;
    assert n % 3 == 1 ==> n * 2 / 3 == 2 * q;
    assert n % 3 == 2 ==> n * 2 / 3 == 2 * q + 1;
  }

  /** The reader arrives at the root directory exactly when there is a reserved sector, there is a table
      and the size of a table is divisible by three. */
  lemma CursorMeetsBase(b: Boot)
    requires Addressable(b)
    ensures CursorAfterTables(b) == RootStart(b) <==> b.reserved >= 1 && b.copies >= 1 && BytesPerFat(b) % 3 == 0
  {
    var f, s := BytesPerFat(b), b.bytesPerSector;
    GroupsRead(f);
    Positions(b.reserved, b.sectorsPerFat, b.copies, s);
    HasSectors(b.sectorsPerFat, s);
    ReservedSkipped(b);
    hide Wrap;
    Small((b.copies - 1) * f);
    if b.copies >= 1 { assert 0 <= (b.copies - 1) * f by { Monotone(0, b.copies - 1, f); } }
  }

  /** The root directory, of 32 bytes an entry, then ends where extraction takes the data to begin, under
      the same condition. */
  lemma RootEndsAtData(b: Boot)
    requires Addressable(b)
    ensures CursorAfterTables(b) + 32 * b.rootEntries == DataBase(b)
            <==> b.reserved >= 1 && b.copies >= 1 && BytesPerFat(b) % 3 == 0
  {
    CursorMeetsBase(b);
  }

  /** The sector in which the specification has cluster `c` begin: behind the reserved sectors, the
      tables and the root directory, rounded up to whole sectors. */
  function FirstSector(b: Boot, c: nat): (n: nat)
    requires b.bytesPerSector > 0 && c >= 2
  {
    var rootSectors := (32 * b.rootEntries + b.bytesPerSector - 1) / b.bytesPerSector;
    b.reserved + b.copies * b.sectorsPerFat + rootSectors + (c - 2) * b.sectorsPerCluster
  }

  /** Extraction looks for a cluster where the specification puts it exactly when the root directory
      fills its sectors. */
  lemma ClusterIsWhereSpecified(b: Boot, c: nat)
    requires b.bytesPerSector > 0 && c >= 2
    ensures DataBase(b) + ClusterSize(b) * (c - 2) == b.bytesPerSector * FirstSector(b, c)
            <==> 32 * b.rootEntries % b.bytesPerSector == 0
  {
    var s, k, d := b.bytesPerSector, c - 2, 32 * b.rootEntries;
    var q := (d + s - 1) / s;
    Sectors(b.reserved + b.copies * b.sectorsPerFat, q, k, b.sectorsPerCluster, s);
    assert b.sectorsPerFat * b.copies == b.copies * b.sectorsPerFat;
    RoundedUp(d, s);
  }

  /** A directory of seventeen entries ends in the middle of its second sector, and extraction looks there
      for the first cluster. */
  lemma DirectoryInPartSector()
    ensures var b := Boot(512, 1, 1, 2, 17, 9);
            FirstSector(b, 2) == 21 && DataBase(b) == 20 * 512 + 32 && DataBase(b) != 512 * FirstSector(b, 2)
  {
  }

  lemma Sectors(a: nat, q: nat, k: nat, n: nat, s: nat)
    ensures s * (a + q + k * n) == a * s + q * s + (s * n) * k
  {
    assert s * (k * n) == (s * n) * k;
    assert s * (a + q + k * n) == s * a + s * q + s * (k * n);
  }

  lemma RoundedUp(d: nat, s: nat)
    requires s > 0
    ensures ((d + s - 1) / s) * s == d <==> d % s == 0
  {
    var q := (d + s - 1) / s;
    Split(d + s - 1, s);
    Split(d, s);
    if q * s == d {
      Unique(q, d / s, d % s, s);
    } else if d % s == 0 {
      Unique(d / s, q, d + s - 1 - q * s, s);
    }
  }

  /** A multiple of `s` plus less than `s`: both parts are determined. */
  lemma Unique(a: nat, b: nat, r: nat, s: nat)
    requires r < s && (a * s == b * s + r || a * s + s - 1 == b * s + r)
    ensures a == b
  {
    if a < b {
      Stride(a, b, s);
    } else if b < a {
      Stride(b, a, s);
    }
  }

  /** A common floppy: 2880 sectors, two tables of nine, 224 directory entries. */
  lemma FloppyData()
    ensures var b := Boot(512, 1, 1, 2, 224, 9);
            Addressable(b) && DataBase(b) == 16896 && ClusterSize(b) == 512 && CursorAfterTables(b) + 7168 == 16896
  {
  }

  lemma HasSectors(f: nat, s: nat)
    requires f * s > 0
    ensures s > 0
  {
  }

  lemma Positions(r: nat, f: nat, c: nat, s: nat)
    ensures (r + f * c) * s == r * s + c * (f * s)
    ensures f * s + (c - 1) * (f * s) == c * (f * s)
  {
    assert (r + f * c) * s == r * s + (f * c) * s;
    assert (f * c) * s == c * (f * s);
  }

  /** A volume with one-sector tables: the reader is one byte past the root directory. */
  lemma OneSectorTable()
    ensures var b := Boot(512, 1, 1, 2, 224, 1);
            Addressable(b) && CursorAfterTables(b) == RootStart(b) + 1 && Entries(b) == 339
  {
  }

  /** A volume that claims no table: the reader is four gigabytes past the root directory. */
  lemma NoTableCopy()
    ensures var b := Boot(512, 1, 1, 0, 16, 3);
            Addressable(b) && BytesPerFat(b) % 3 == 0 && CursorAfterTables(b) == RootStart(b) + WORD
  {
  }

  /** Entry `k` kept is the table's entry for cluster `k + 2`. */
  predicate Agree(disk: seq<Byte>, base: nat, entries: seq<bv16>) {
    forall k :: 0 <= k < |entries| ==>
      base + (k + 2) + (k + 2) / 2 + 1 < |disk| && entries[k] == TableEntry(disk, base, k + 2)
  }

  lemma AgreeGrows(disk: seq<Byte>, base: nat, entries: seq<bv16>, d: (bv16, bv16))
    requires Agree(disk, base, entries) && |entries| % 2 == 0
    requires base + 3 * (|entries| / 2 + 1) + 3 <= |disk|
    requires d.0 == TableEntry(disk, base, |entries| + 2) && d.1 == TableEntry(disk, base, |entries| + 3)
    ensures Agree(disk, base, entries + [d.0, d.1])
  {
    hide TableEntry;
    var n := |entries|;
    forall k | 0 <= k < n + 2
      ensures base + (k + 2) + (k + 2) / 2 + 1 < |disk|
      ensures (entries + [d.0, d.1])[k] == TableEntry(disk, base, k + 2)
    {
      if k < n {
        assert entries[k] == TableEntry(disk, base, k + 2);
      }
    }
  }

  /** Entries are stored in pairs: one goes past the room for them exactly when the size of a table
      leaves two on division by three. */
  lemma PairsFit(b: Boot)
    requires BytesPerFat(b) >= 3
    ensures Entries(b) >= 0 && TableBytesRead(b) >= 3
    ensures 2 * ((Entries(b) + 1) / 2) > Entries(b) <==> BytesPerFat(b) % 3 == 2
    ensures Entries(b) <= 2 * ((Entries(b) + 1) / 2) <= Entries(b) + 1
  {
    var n := BytesPerFat(b);
    var q := n / 3;
    assert n % 3 == 0 ==> n * 2 / 3 == 2 * q;
    assert n % 3 == 1 ==> n * 2 / 3 == 2 * q;
    assert n % 3 == 2 ==> n * 2 / 3 == 2 * q + 1;
  }

  /** The two entries of a group, stored at `i` and behind it; what has no room is returned. */
  method StorePair(entries: array<bv16>, i: nat, d: (bv16, bv16)) returns (beyond: seq<bv16>)
    requires i < entries.Length
    modifies entries
    ensures |beyond| == if i + 1 < entries.Length then 0 else 1
    ensures entries[..i + 2 - |beyond|] + beyond == old(entries[..i]) + [d.0, d.1]
  {
    entries[i] := d.0;
    beyond := [];
    if i + 1 < entries.Length { entries[i + 1] := d.1; } else { beyond := [d.1]; }
  }

  /** The loop over the groups behind the first: `n` entries, and `beyond` what is stored past the room
      for them. */
  method ReadGroups(disk: seq<Byte>, start: nat, n: nat) returns (entries: array<bv16>, beyond: seq<bv16>, cursor: nat)
    requires start + 3 + 3 * ((n + 1) / 2) <= |disk|
    ensures entries.Length == n && |beyond| == n % 2
    ensures Agree(disk, start, entries[..] + beyond)
    ensures cursor == start + 3 + 3 * ((n + 1) / 2)
  {
    hide Decode, TableEntry, Agree;
    NothingKept(disk, start);
    cursor := start + 3;
    entries := new bv16[n];
    beyond := [];
    assert entries[..0] + beyond == [];
    var i := 0;
    while i < n
      invariant 0 <= i <= n + 1 && i % 2 == 0 && cursor == start + 3 + 3 * (i / 2)
      invariant |beyond| == if i > n then 1 else 0
      invariant Agree(disk, start, entries[..i - |beyond|] + beyond)
      decreases n - i
    {
      GroupIs(disk, start, i / 2 + 1);
      var d := Decode(disk[cursor], disk[cursor + 1], disk[cursor + 2]);
      ghost var kept := entries[..i];
      assert entries[..i] + [] == kept;
      AgreeGrows(disk, start, kept, d);
      beyond := StorePair(entries, i, d);
      cursor := cursor + 3;
      i := i + 2;
    }
    assert entries[..i - |beyond|] == entries[..];
  }

  /** The sequential reader up to the root directory. Every entry stored is the one the specification's
      rule gives for its cluster, and the second entry of the table is the end marker. */
  method ReadTables(disk: seq<Byte>, b: Boot)
    returns (marker: bv16, entries: array<bv16>, beyond: seq<bv16>, cursor: int)
    requires Addressable(b) && TablesAt(b) + TableBytesRead(b) <= |disk|
    ensures entries.Length == Entries(b)
    ensures Agree(disk, TablesAt(b), entries[..] + beyond)
    ensures beyond != [] <==> BytesPerFat(b) % 3 == 2
    ensures marker == TableEntry(disk, TablesAt(b), 1)
    ensures cursor == RootStart(b) <==> b.reserved >= 1 && b.copies >= 1 && BytesPerFat(b) % 3 == 0
  {
    hide Decode, TableEntry, BytesPerFat, TablesAt, Agree, RootStart, Wrap, IsBoot, DataBase;
    PairsFit(b);
    CursorMeetsBase(b);
    var start: nat := SkipReserved(b);
    GroupIs(disk, start, 0);
    marker := Decode(disk[start], disk[start + 1], disk[start + 2]).1;
    entries, beyond, cursor := ReadGroups(disk, start, Entries(b));
    cursor := cursor + Wrap((b.copies - 1) * BytesPerFat(b));
  }

  lemma NothingKept(disk: seq<Byte>, base: nat)
    ensures Agree(disk, base, [])
  {
  }

  // ---- Extraction ----

  /** A chain of clusters from `start`: each entry names the next cluster, the last one holds the
      marker. */
  ghost predicate IsChain(entries: seq<bv16>, marker: bv16, start: nat, chain: seq<nat>) {
    && |chain| > 0 && chain[0] == start
    && (forall k :: 0 <= k < |chain| ==> 2 <= chain[k] < |entries| + 2)
    && (forall k :: 0 <= k < |chain| - 1 ==>
          entries[chain[k] - 2] != marker && entries[chain[k] - 2] as nat == chain[k + 1])
    && entries[chain[|chain| - 1] - 2] == marker
  }

  predicate Fits(disk: seq<Byte>, base: nat, size: nat, c: nat) {
    c >= 2 && base + size * (c - 2) + size <= |disk|
  }

  /** The bytes `write_cluster` reads. */
  function Cluster(disk: seq<Byte>, base: nat, size: nat, c: nat): (r: seq<Byte>)
    requires Fits(disk, base, size, c)
    ensures |r| == size
  {
    var a := base + size * (c - 2);
    disk[a..a + size]
  }

  predicate InImage(disk: seq<Byte>, base: nat, size: nat, chain: seq<nat>) {
    forall k :: 0 <= k < |chain| ==> Fits(disk, base, size, chain[k])
  }

  /** The bytes of the chained clusters, one after the other. */
  function Contents(disk: seq<Byte>, base: nat, size: nat, chain: seq<nat>): (c: seq<Byte>)
    requires InImage(disk, base, size, chain)
  {
    if chain == [] then [] else Cluster(disk, base, size, chain[0]) + Contents(disk, base, size, chain[1..])
  }

  lemma {:induction false} ContentsLength(disk: seq<Byte>, base: nat, size: nat, chain: seq<nat>)
    requires InImage(disk, base, size, chain)
    ensures |Contents(disk, base, size, chain)| == |chain| * size
  {
    hide Fits, Cluster;
    if chain == [] {
    } else {
      ContentsLength(disk, base, size, chain[1..]);
      Succ(|chain| - 1, size);
    }
  }

  lemma Succ(n: nat, size: nat)
    ensures (n + 1) * size == n * size + size
  {
  }

  lemma {:induction false} ContentsSnoc(disk: seq<Byte>, base: nat, size: nat, chain: seq<nat>, c: nat)
    requires InImage(disk, base, size, chain + [c])
    ensures InImage(disk, base, size, chain) && Fits(disk, base, size, c)
    ensures Contents(disk, base, size, chain + [c]) == Contents(disk, base, size, chain) + Cluster(disk, base, size, c)
  {
    hide Fits;
    var all := chain + [c];
    assert all[|chain|] == c;
    assert forall k :: 0 <= k < |chain| ==> all[k] == chain[k];
    if chain == [] {
      assert all[1..] == [];
    } else {
      assert all[1..] == chain[1..] + [c];
      assert forall k :: 0 <= k < |all[1..]| ==> all[1..][k] == all[k + 1];
      ContentsSnoc(disk, base, size, chain[1..], c);
    }
  }

  /** Byte `i` of the `k`th cluster of a file is byte `i` of that cluster's place in the data area. */
  lemma {:induction false} ContentsAt(disk: seq<Byte>, base: nat, size: nat, chain: seq<nat>, k: nat, i: nat)
    requires InImage(disk, base, size, chain) && k < |chain| && i < size
    ensures k * size + i < |Contents(disk, base, size, chain)|
    ensures Contents(disk, base, size, chain)[k * size + i] == disk[base + size * (chain[k] - 2) + i]
    decreases k
  {
    if k > 0 {
      hide Cluster, Fits;
      ContentsAt(disk, base, size, chain[1..], k - 1, i);
      Succ(k - 1, size);
    }
  }

  /** Where two places of a chain hold the same cluster, so do all the places after them. */
  lemma {:induction false} RepeatsOn(entries: seq<bv16>, marker: bv16, start: nat, chain: seq<nat>, i: nat, j: nat)
    requires IsChain(entries, marker, start, chain) && i < j < |chain|
    requires chain[i] == chain[j]
    ensures false
    decreases |chain| - j
  {
    if j < |chain| - 1 {
      RepeatsOn(entries, marker, start, chain, i + 1, j + 1);
    }
  }

  /** A chain that ends visits no cluster twice, so it is no longer than the table. */
  lemma ChainVisitsOnce(entries: seq<bv16>, marker: bv16, start: nat, chain: seq<nat>)
    requires IsChain(entries, marker, start, chain)
    ensures forall i, j :: 0 <= i < j < |chain| ==> chain[i] != chain[j]
    ensures |chain| <= |entries|
  {
    forall i, j | 0 <= i < j < |chain| ensures chain[i] != chain[j] {
      if chain[i] == chain[j] {
        RepeatsOn(entries, marker, start, chain, i, j);
      }
    }
    Pigeons(chain, Room(|entries|));
  }

  function Room(n: nat): (r: set<nat>)
    ensures |r| == n && forall x :: x in r <==> 2 <= x < n + 2
  {
    if n == 0 then {} else Room(n - 1) + {n + 1}
  }

  lemma {:induction false} Pigeons(s: seq<nat>, room: set<nat>)
    requires forall i, j :: 0 <= i < j < |s| ==> s[i] != s[j]
    requires forall k :: 0 <= k < |s| ==> s[k] in room
    ensures |s| <= |room|
  {
    if s == [] {
    } else {
      var n := |s| - 1;
      Pigeons(s[..n], room - {s[n]});
    }
  }

  /** Does the walk from cluster `c` meet the marker within `k` steps, without leaving the table? */
  predicate Ends(entries: seq<bv16>, marker: bv16, c: nat, k: nat)
    decreases k
  {
    && 2 <= c < |entries| + 2
    && (entries[c - 2] == marker || (k > 0 && Ends(entries, marker, entries[c - 2] as nat, k - 1)))
  }

  /** There is a chain exactly when the walk meets the marker in at most as many steps as there are
      entries; any other walk leaves the table or never ends. */
  lemma ChainIffEnds(entries: seq<bv16>, marker: bv16, start: nat)
    ensures (exists chain :: IsChain(entries, marker, start, chain)) <==> Ends(entries, marker, start, |entries|)
  {
    if chain :| IsChain(entries, marker, start, chain) {
      ChainVisitsOnce(entries, marker, start, chain);
      ChainEnds(entries, marker, chain, 0, |entries|);
    }
    if Ends(entries, marker, start, |entries|) {
      var chain := EndsChain(entries, marker, start, |entries|);
    }
  }

  lemma {:induction false} ChainEnds(entries: seq<bv16>, marker: bv16, chain: seq<nat>, i: nat, k: nat)
    requires i < |chain| <= i + k + 1 && IsChain(entries, marker, chain[0], chain)
    ensures Ends(entries, marker, chain[i], k)
    decreases k
  {
    if i + 1 < |chain| {
      ChainEnds(entries, marker, chain, i + 1, k - 1);
    }
  }

  lemma {:induction false} EndsChain(entries: seq<bv16>, marker: bv16, c: nat, k: nat) returns (chain: seq<nat>)
    requires Ends(entries, marker, c, k)
    ensures IsChain(entries, marker, c, chain)
    decreases k
  {
    if entries[c - 2] == marker {
      chain := [c];
    } else {
      var rest := EndsChain(entries, marker, entries[c - 2] as nat, k - 1);
      chain := [c] + rest;
    }
  }

  /** `extract_single_file`, for an entry with a start cluster whose chain ends: the file written is the
      chained clusters without what the last one's size, the remainder of the file's size, cuts off. */
  method Extract(disk: seq<Byte>, b: Boot, entries: array<bv16>, marker: bv16, start: nat, fileSize: nat,
                 ghost chain: seq<nat>)
    returns (out: seq<Byte>)
    requires start == 0 || IsChain(entries[..], marker, start, chain)
    requires b.bytesPerSector > 0 && b.sectorsPerCluster > 0 && |disk| <= WORD
    requires InImage(disk, (b.reserved + b.copies * b.sectorsPerFat) * b.bytesPerSector + 32 * b.rootEntries,
                     b.sectorsPerCluster * b.bytesPerSector, chain)
    ensures start == 0 ==> out == []
    ensures start != 0 ==>
              var base := (b.reserved + b.copies * b.sectorsPerFat) * b.bytesPerSector + 32 * b.rootEntries;
              var size := b.sectorsPerCluster * b.bytesPerSector;
              size > 0 && Written(Contents(disk, base, size, chain), size, |chain|, fileSize, out)
  {
    DataIs(b);
    hide Contents, Fits, Cluster, Written, DataBase, ClusterSize;
    out := [];
    if start != 0 {
      var base, size := DataBase(b), ClusterSize(b);
      var cluster := start;
      ghost var k: nat := 0;
      var last := false;
      ContentsEmpty(disk, base, size);
      while !last
        invariant k <= |chain| && (last <==> k == |chain|)
        invariant !last ==> cluster == chain[k]
        invariant InImage(disk, base, size, chain[..k])
        invariant !last ==> out == Contents(disk, base, size, chain[..k])
        invariant last ==> Written(Contents(disk, base, size, chain[..k]), size, k, fileSize, out)
        decreases |chain| - k
      {
        var next := entries[cluster - 2];
        last := next == marker;
        var n: nat := if last then fileSize % size else size;
        assert chain[..k + 1] == chain[..k] + [chain[k]];
        InImagePrefix(disk, base, size, chain, k + 1);
        ContentsSnoc(disk, base, size, chain[..k], cluster);
        ContentsLength(disk, base, size, chain[..k]);
        var piece := ReadCluster(disk, base, size, cluster);
        LastPiece(out, piece, size, k, fileSize);
        out := out + piece[..n];
        assert n == size ==> piece[..n] == piece;
        cluster := next as nat;
        k := k + 1;
      }
      assert chain[..k] == chain;
    }
  }

  lemma DataIs(b: Boot)
    ensures DataBase(b) == (b.reserved + b.copies * b.sectorsPerFat) * b.bytesPerSector + 32 * b.rootEntries
    ensures ClusterSize(b) == b.sectorsPerCluster * b.bytesPerSector
    ensures b.bytesPerSector > 0 && b.sectorsPerCluster > 0 ==> ClusterSize(b) > 0
  {
    assert b.sectorsPerFat * b.copies == b.copies * b.sectorsPerFat;
    if b.bytesPerSector > 0 && b.sectorsPerCluster > 0 { Stride(0, b.sectorsPerCluster, b.bytesPerSector); }
  }

  /** The seek, to an address of 32 bits, and the read of `write_cluster`. */
  method ReadCluster(disk: seq<Byte>, base: nat, size: nat, c: nat) returns (piece: seq<Byte>)
    requires Fits(disk, base, size, c) && size > 0 && |disk| <= WORD
    ensures piece == Cluster(disk, base, size, c)
  {
    var address := Wrap(base + size * (c - 2));
    piece := disk[address..address + size];
  }

  /** What the extraction of a file with these contents leaves behind. */
  predicate Written(contents: seq<Byte>, size: nat, clusters: nat, fileSize: nat, out: seq<Byte>)
    requires size > 0
  {
    && clusters > 0 && |contents| == clusters * size
    && (clusters - 1) * size + fileSize % size <= |contents|
    && out == contents[..(clusters - 1) * size + fileSize % size]
  }

  lemma ContentsEmpty(disk: seq<Byte>, base: nat, size: nat)
    ensures InImage(disk, base, size, []) && Contents(disk, base, size, []) == []
  {
  }

  lemma InImagePrefix(disk: seq<Byte>, base: nat, size: nat, chain: seq<nat>, k: nat)
    requires InImage(disk, base, size, chain) && k <= |chain|
    ensures InImage(disk, base, size, chain[..k])
  {
  }

  lemma LastPiece(out: seq<Byte>, piece: seq<Byte>, size: nat, k: nat, fileSize: nat)
    requires size > 0 && |piece| == size && |out| == k * size
    ensures Written(out + piece, size, k + 1, fileSize, out + piece[..fileSize % size])
  {
    Succ(k, size);
    assert (out + piece)[..k * size + fileSize % size] == out + piece[..fileSize % size];
  }

  /** The extracted file is the first bytes of its clusters, as many as its size, exactly when the
      chain has one cluster more than the whole clusters in that size. */
  lemma ExtractedIsFile(contents: seq<Byte>, size: nat, clusters: nat, fileSize: nat, out: seq<Byte>)
    requires size > 0 && Written(contents, size, clusters, fileSize, out) && fileSize <= clusters * size
    ensures out == contents[..fileSize] <==> fileSize / size + 1 == clusters
  {
    var q := fileSize / size;
    Split(fileSize, size);
    if q + 1 != clusters {
      assert |contents[..fileSize]| == fileSize;
      if (clusters - 1) * size == q * size {
        Cancel(clusters - 1, q, size);
      }
    }
  }

  lemma Split(n: nat, d: nat)
    requires d > 0
    ensures n == (n / d) * d + n % d
  {
  }

  lemma Stride(a: nat, b: nat, d: nat)
    requires a < b
    ensures a * d + d <= b * d
  {
    var m := b - a - 1;
    assert b * d == (a + (m + 1)) * d == a * d + m * d + d;
    assert m * d >= 0;
  }

  lemma Cancel(a: nat, b: nat, d: nat)
    requires d > 0 && a * d == b * d
    ensures a == b
  {
    if a < b {
      Stride(a, b, d);
    } else if b < a {
      Stride(b, a, d);
    }
  }

  /** With as few clusters as hold the file, the layout a volume has: the file is whole exactly when its
      size is no multiple of the cluster size, and a multiple loses its last cluster. */
  lemma MultipleLosesCluster(contents: seq<Byte>, size: nat, clusters: nat, fileSize: nat, out: seq<Byte>)
    requires size > 0 && Written(contents, size, clusters, fileSize, out)
    requires (clusters - 1) * size < fileSize <= clusters * size
    ensures out == contents[..fileSize] <==> fileSize % size != 0
    ensures fileSize % size == 0 ==> size <= fileSize && out == contents[..fileSize - size]
  {
    var q := fileSize / size;
    Split(fileSize, size);
    Succ(clusters - 1, size);
    if fileSize % size == 0 {
      Between(q, clusters, size);
      assert q == clusters;
    } else {
      Below(q, clusters, size, fileSize);
    }
    ExtractedIsFile(contents, size, clusters, fileSize, out);
  }

  lemma Between(q: nat, n: nat, d: nat)
    requires n > 0 && d > 0 && (n - 1) * d < q * d <= n * d
    ensures q == n
  {
    Succ(n - 1, d);
    if q < n {
      Stride(q, n, d);
    } else if q > n {
      Stride(n, q, d);
    }
  }

  lemma Below(q: nat, n: nat, d: nat, f: nat)
    requires n > 0 && d > 0 && (n - 1) * d < f <= n * d && q * d < f < q * d + d
    ensures q + 1 == n
  {
    if q + 1 < n {
      Stride(q, n - 1, d);
    } else if n <= q {
      Stride(n - 1, q, d);
      Succ(n - 1, d);
    }
  }

  // ---- A volume whose file is lost ----

  const VOLUME := Boot(512, 1, 1, 1, 16, 3)

  /** One reserved sector, a table of three, sixteen directory entries, and one cluster of 0x41 that
      ends the chain of its file. */
  function Image(): (disk: seq<Byte>)
    ensures |disk| == 3072
  {
    seq(3072, i requires 0 <= i < 3072 =>
      if i == 512 then 0xf0 else if 513 <= i <= 515 then 0xff else if i == 516 then 0x0f
      else if i >= 2560 then 0x41 else 0)
  }

  lemma ImageTable()
    ensures TablesAt(VOLUME) == 512 && DataBase(VOLUME) == 2560 && ClusterSize(VOLUME) == 512 && Addressable(VOLUME)
    ensures TableBytesRead(VOLUME) == 1536 && Entries(VOLUME) == 1022
    ensures TableEntry(Image(), 512, 1) == 0xfff && TableEntry(Image(), 512, 2) == 0xfff
  {
    ThirdEntry();
    var d := Image();
    assert d[513] == 0xff && d[514] == 0xff && d[515] == 0xff && d[516] == 0x0f;
  }

  lemma ThirdEntry()
    ensures ((0xff as bv16) | ((0xff as bv16) << 8)) >> 4 == 0xfff
    ensures ((0xff as bv16) | ((0x0f as bv16) << 8)) & 0xfff == 0xfff
  {
  }

  /** The file of exactly one cluster on this volume, read and extracted, comes out empty. */
  method OneClusterLost() returns (out: seq<Byte>)
    ensures out == [] && Cluster(Image(), DataBase(VOLUME), ClusterSize(VOLUME), 2) == seq(512, _ => 0x41)
  {
    hide TableEntry, TableBytesRead, Entries, IsBoot;
    var disk := Image();
    ImageTable();
    var marker, entries, beyond, cursor := ReadTables(disk, VOLUME);
    assert (entries[..] + beyond)[0] == TableEntry(disk, 512, 2);
    assert entries[..][0] == marker;
    assert IsChain(entries[..], marker, 2, [2]);
    out := Extract(disk, VOLUME, entries, marker, 2, 512, [2]);
    ghost var contents := Contents(disk, DataBase(VOLUME), ClusterSize(VOLUME), [2]);
    MultipleLosesCluster(contents, 512, 1, 512, out);
  }
}
