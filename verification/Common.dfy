/** Types shared by the modules: options, bytes and pages. */
module Common {
  const PAGE_SIZE := 4096

  /** One past the largest 64-bit word. */
  const WORD := 0x1_0000_0000_0000_0000

  datatype Option<+T> = None | Some(value: T)

  type Byte = b: int | 0 <= b < 256

  type Page = p: seq<Byte> | |p| == PAGE_SIZE witness seq(PAGE_SIZE, _ => 0)

  /** The page that first touch copies in: the zero-filled `page_cache`. */
  function ZeroPage(): (p: Page)
    ensures forall i :: 0 <= i < PAGE_SIZE ==> p[i] == 0
  {
    seq(PAGE_SIZE, _ => 0)
  }
}
