/**
 * The device driven through its classes: two files opened on one device
 * share its buffer, and each keeps its own cursor.
 */
module GlobalMemScenario {
  import opened GlobalMem

  /**
   * Write 1, 2, 3, 4 through one file, step back two bytes and read ten;
   * then clear through a second file, seek the first back to 0 and read four.
   */
  method SharedBufferScenario() returns (first: seq<bv8>, second: seq<bv8>)
    ensures first == [3, 4, 0, 0, 0, 0, 0, 0, 0, 0]
    ensures second == [0, 0, 0, 0]
  {
    var d := new Device();
    var a := new File.Open(d);
    var b := new File.Open(d);
    var n := a.Write([1, 2, 3, 4], false);
    assert n == 4 && a.pos == 4 && b.pos == 0;
    n := a.Llseek(-2, SEEK_CUR);
    assert n == 2;
    n, first := a.Read(10, false);
    assert n == 10 && a.pos == 12;
    n := b.Ioctl(CLEAR, 0);
    assert a.pos == 12;
    n := a.Llseek(0, SEEK_SET);
    n, second := a.Read(4, false);
  }
}
