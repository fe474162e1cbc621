/**
 * `_write_mnt` of the system dispatchers (the same body in the oldest, the
 * `_private` and the `_dt_mvc` generations): the mount table file is a
 * six-column header followed by one six-field row per mounted partition.
 */
module MountTable {
  import opened Common
  import Decimal

  /** One entry of psutil.disk_partitions() with its psutil.disk_usage(). */
  datatype Partition = Partition(device: string, mountpoint: string, fstype: string, opts: string,
                                 total: int, used: int)

  const MNT_COLUMNS: seq<string> := ["DEVICE", "MOUNT_POINT", "FSTYPE", "OPTS", "TOTAL", "USED"]

  function MountRow(p: Partition): Row
  {
    [Text(p.device), Text(p.mountpoint), Text(p.fstype), Text(p.opts),
     Text(Decimal.IntToString(p.total)), Text(Decimal.IntToString(p.used))]
  }

  /**
   * The lines of `<basename>.mnt.tsv`: the header first, then the partitions
   * in the order psutil lists them, each row as wide as the header and
   * carrying its partition's device, mount point, type, options and sizes.
   */
  method WriteMnt(partitions: seq<Partition>) returns (lines: seq<Row>)
    ensures |lines| == |partitions| + 1
    ensures lines[0] == HeaderRow(MNT_COLUMNS) && |lines[0]| == 6
    ensures forall i :: 0 <= i < |lines| ==> |lines[i]| == 6
    ensures forall i :: 0 <= i < |partitions| ==> lines[i + 1] == MountRow(partitions[i])
  {
    lines := [HeaderRow(MNT_COLUMNS)];
    var k := 0;
    while k < |partitions|
      invariant 0 <= k <= |partitions|
      invariant |lines| == k + 1
      invariant lines[0] == HeaderRow(MNT_COLUMNS)
      invariant forall i :: 0 <= i < |lines| ==> |lines[i]| == 6
      invariant forall i :: 0 <= i < k ==> lines[i + 1] == MountRow(partitions[i])
    {
      lines := lines + [MountRow(partitions[k])];
      k := k + 1;
    }
  }

  /** The size columns read back as the partition's total and used bytes. */
  lemma MountRowSizesReadBack(p: Partition)
    ensures Decimal.ParseInt(MountRow(p)[4].s) == p.total
    ensures Decimal.ParseInt(MountRow(p)[5].s) == p.used
  {
    Decimal.IntRoundTrip(p.total);
    Decimal.IntRoundTrip(p.used);
  }
}
