# Verified models of the camera and shared-memory drivers

A Dafny model of five pieces of C code, with proofs about all their inputs and runs:

- the Android shared-memory driver (ashmem): per-area lists of unpinned page ranges, the
  global LRU list with its page count, pin, unpin, pin status, release, and shrinkers that
  drop the mutex around each hole punch;
- the Sony IMX219 sensor driver: formats and flips, blanking and exposure ranges, streaming
  and runtime power management, over a bus on which any register write may fail;
- the V4L2 helper library: the memory mappings of a buffer queue, and control enumeration
  on devices that step to the next control and on those that cannot;
- the HDMI CEC operand codec for digital services and the four messages that embed one;
- the bit fields that several OV5648 settings share.

`dafny verify dfyconfig.toml` checks everything.

## How the model is built

Each component has a module of functions on values, modules of lemmas about them, and a
class whose methods update fields and arrays in place with the loops of the C code and are
proved to follow the functions:

| component | values and lemmas | in place |
|---|---|---|
| ashmem | `AshmemRanges`, `AshmemPinning`, `AshmemUnpinning`, `AshmemRequest`, `AshmemIoctl`, `AshmemShrinking`, `AshmemLruOrder`, `AshmemProtocol`, `AshmemPinned`, `AshmemLoneScan`, `AshmemAge`, `AshmemExact`, `AshmemExamples` | `AshmemDriver` |
| IMX219 | `Imx219Tables`, `Imx219Sensor`, `Imx219Theorems`, `Imx219Start`, `Imx219Runs`, `Imx219Mirror`, `Imx219Depth`, `Imx219Size`, `Imx219Stop`, `Imx219Bayer`, `Imx219Examples` | `Imx219Driver` |
| V4L2 helpers | `V4lQueue`, `V4lControls` | `V4lBuffers`, `V4lControls.QueryExtCtrl` |
| CEC | `CecCodec`, `CecMessages` | `CecBuffer` |
| OV5648 | `Ov5648Registers` | `Ov5648Registers.Sensor` |

Assumptions taken from outside the repository:

- ashmem: 64-bit `size_t`, 4096-byte pages, 32-bit offset and length in a pin request,
  NOT_PURGED = 0 and WAS_PURGED = 1. A range id stands for the address of a range. The new
  range is allocated before the mutex is taken, so it is a parameter. A hole punch may drop
  any subset of the hole's pages. A mapping has nonzero length, and every backing file is new.
- IMX219: the V4L2 control framework at its contract. modify_range replaces the range and
  clamps the value; the driver is called only on a change; a value is committed only if the
  driver accepts it; handler setup applies controls in creation order; the nearest-size
  search returns a table entry. Whether others hold a runtime PM reference, and whether
  power-up succeeds, are inputs.
- V4L2: mmap yields an address that is neither NULL nor in use, or fails.
- CEC: unions are little-endian overlays; only the member that the type selects is compared.
- OV5648: a failed I2C write leaves the register as it was.

## What the code does not keep

Properties one would expect of it, each with an input or a run from the initial state that breaks
it, and the exact condition under which it holds:

- A request whose effective length is zero is accepted and unpins an empty interval. The
  empty range it leaves makes `ashmem_get_pin_status` answer UNPINNED for fully pinned
  intervals around it (`FooledStatusExample`) and lets `ashmem_unpin` return early after
  deleting it (`EarlyReturnExample`, `EarlyReturnIff`). No page is ever lost.
- Even without such unpins a request of effective length zero inside an area above 4 GiB is
  answered for a page it does not name (`InconclusiveExample`). In every run without such
  unpins the answers are exact if and only if the request has pages, is at offset 0, is on an
  area below 4 GiB, or that page makes no difference (`AnswersAreExactIff`).
- "Zero means everything onward" is cut to 32 bits, so it holds exactly for areas below
  4 GiB (`EverythingOnwardIff`). On areas whose aligned size is a multiple of 4 GiB it
  unpins up to page 2^64 - 1 (`AcceptedInBoundsIff`, `UnpinAllInBoundsIff`); without that
  request every range stays inside its area (`RunKeepsBounds`).
- The shrinker's comment says that ranges go until nr_to_scan pages are freed; the loop counts
  ranges and may go on after that (`ScanExample`). The two agree exactly if the ranges taken
  hold at least nr_to_scan pages, or are all there are, and without the last one hold fewer
  (`ScanCountsPagesIff`); with enough ranges, none of them empty, if all but the last are
  single pages (`ScanCountsSinglesIff`).
- Starting a stream can succeed although a write failed: when vblank is re-applied, the
  write that clamps the exposure is not checked (`HiddenFailureExample`). This cannot happen
  exactly if the exposure fits the frame length (`StartHonestIff`).
- The IMX219 driver has no register case for HBLANK, so a mode change while the sensor is in
  use leaves the old HBLANK value (`HblankExample`, `DoKeepsHblankIff`).
- A failed frame-length write leaves the exposure limit already moved (`VblankExample`,
  `VblankMatchesIff`).
- A mode change while streaming does not rewrite the frame-length register if vblank keeps
  its value (`StaleVtsExample`, `FormatUpdatesVtsIff`). A change of bit depth never reaches the
  sensor before the next start (`StaleDepthExample`, `FormatUpdatesDepthIff`), nor does a change
  of size (`FormatUpdatesSizeIff`).
- Stopping a stream ignores whether its write got through, so the sensor may go on streaming
  when the driver has stopped (`LostStopExample`). Mode register and driver agree exactly if the
  last stop got through or a start has got a write through since (`SelectionAgreesIff`).
- A failed buffer mapping leaves what it mapped out of reach (`LeakExample`). A mapping call
  is safe from that exactly if it has at most one plane to map (`MapNeverLeaksIff`), and one
  that failed did no harm exactly if its first mmap failed (`FailedMapLeaksIff`).
- Asking for buffers while some are mapped may change the plane lengths, and the release then
  unmaps under the wrong length (`WrongLengthExample`). Whatever the kernel answers, this
  cannot happen exactly if no buffer is granted, buffer 0 is not queried, or nothing is mapped
  (`RequestKeepsSoundIff`).
- Asking for the control after id 0xffffffff starts over (`LargestIdWraps`); from every other
  id the enumeration advances (`NextAdvancesIff`).
- The CEC parser shifts the upper bits of a channel's major number by 6 instead of 8
  (`ChannelsConfused`, `MajorIsFolded`, `RoundTripIff`).

## Model

| member | source | states |
|---|---|---|
| AshmemProtocol.RunKeepsInv | exercise-09-dec-21/camera/staging/android/ashmem.c:485-509 | in every state of every run of any number of user threads and shrinkers: tables consistent, mutex held by at most one thread, in-flight count equal to the number of shrinkers between marking and lowering, every page of a hole in flight and every page punched since it was last pinned marked purged |
| AshmemProtocol.StepKeepsInv | exercise-09-dec-21/camera/staging/android/ashmem.c:485-509 | each single step (open, set size, mmap, release, ask, serve, mark, unlock, punch, lower, retry, give up) keeps that invariant |
| AshmemProtocol.PunchedPagesAreUnpinned | exercise-09-dec-21/camera/staging/android/ashmem.c:488-506 | whatever a shrinker punches is, at that moment, unpinned and marked purged in every open area backed by that file; no pinned page is ever punched |
| AshmemProtocol.HoleStaysUnpinned | exercise-09-dec-21/camera/staging/android/ashmem.c:485-509 | from marking a range until its punch is over, none of its pages is pinned, whatever other threads do meanwhile, and the in-flight count is positive |
| AshmemProtocol.LostPagesAreReported | exercise-09-dec-21/camera/staging/android/ashmem.c:660-691 | in every run a pin request whose interval holds a page punched since it was last pinned answers WAS_PURGED |
| AshmemProtocol.RunFreezesSize | exercise-09-dec-21/camera/staging/android/ashmem.c:828-834 | once an area has its backing file, file and size are the same in every later state while it stays open |
| AshmemProtocol.StepFreezesSize | exercise-09-dec-21/camera/staging/android/ashmem.c:405-422 | the same for one step; only release removes the area |
| AshmemProtocol.StepsNeverStick | exercise-09-dec-21/camera/staging/android/ashmem.c:493-498 | a scan that finds the LRU list nonempty finds a live range of an open area with a backing file; a request under the mutex with nothing in flight can be served |
| AshmemProtocol.WaiterIsServed | exercise-09-dec-21/camera/staging/android/ashmem.c:774-775 | a request that waits with the mutex held is never deadlocked: the shrinkers in flight can finish without the mutex and leave the tables as they were |
| AshmemProtocol.PinUnpinMarks | exercise-09-dec-21/camera/staging/android/ashmem.c:660-729 | a request drops no purge mark except on the pages it pins |
| AshmemProtocol.MarkStepKeepsInv | exercise-09-dec-21/camera/staging/android/ashmem.c:489-500 | marking the oldest range covers the hole it is about to punch |
| AshmemProtocol.ServeStepKeepsInv | exercise-09-dec-21/camera/staging/android/ashmem.c:774-806 | serving a request with the count at zero keeps the invariant |
| AshmemPinned.PinnedStaysPinned | exercise-09-dec-21/camera/staging/android/ashmem.c:660-691 | in every run: from a served pin of a page until the next served unpin of it, the page is pinned, whatever other requests, scans, mappings and releases come between |
| AshmemPinned.PinnedIsNotPunched | exercise-09-dec-21/camera/staging/android/ashmem.c:488-506 | and no shrinker punches it meanwhile while its area is open on the file the hole is in |
| AshmemPinned.UnpinReleasesPage | exercise-09-dec-21/camera/staging/android/ashmem.c:702-731 | a served unpin leaves every page it names unpinned |
| AshmemPinned.StepUnpinsOnlyNamed | exercise-09-dec-21/camera/staging/android/ashmem.c:774-806 | no step but a served unpin that names it turns a pinned page unpinned |
| AshmemPinned.HoleIsMarkedRange | exercise-09-dec-21/camera/staging/android/ashmem.c:489-498 | the hole of a shrinker is exactly the pages its marking turned purged in the area on that file, and no other page turns purged |
| AshmemLoneScan.LoneScanIsScan | exercise-09-dec-21/camera/staging/android/ashmem.c:476-516 | in every run a shrinker that goes through its scan with no other thread in between leaves the tables as the scan loop with its nr_to_scan does |
| AshmemLoneScan.LoneScanOutcome | exercise-09-dec-21/camera/staging/android/ashmem.c:488-515 | at every point of such a scan, between marking, unlocking, punching, lowering and retrying, the rest of the loop leads to the same tables |
| AshmemLoneScan.StepKeepsOutcome | exercise-09-dec-21/camera/staging/android/ashmem.c:488-515 | one step of it |
| AshmemPinning.PinIsDifference | exercise-09-dec-21/camera/staging/android/ashmem.c:634-695 | pinning is set difference: unpinned pages become old minus interval, every surviving page keeps its purge flag, other areas are untouched, tables stay consistent; the answer is WAS_PURGED exactly if a purged range met the interval |
| AshmemPinning.PinFromIsDifference | exercise-09-dec-21/camera/staging/android/ashmem.c:640-692 | the same from any list position, through all four overlap cases and both breaks |
| AshmemPinning.PinReportsPurge | exercise-09-dec-21/camera/staging/android/ashmem.c:660-661 | every purged page pinned is reported; without empty ranges the report is exact, an empty interval being judged by the page it stands before |
| AshmemPinning.PinBoundsDoNotWrap | exercise-09-dec-21/camera/staging/android/ashmem.c:669-689 | pgend + 1 and pgstart - 1 stay inside size_t in the cases that compute them |
| AshmemPinning.PinVisit | exercise-09-dec-21/camera/staging/android/ashmem.c:640-692 | a visit that does not end the loop has not used the spare range and moves closer to the end of the list |
| AshmemPinning.DelStep | exercise-09-dec-21/camera/staging/android/ashmem.c:663-667 | case 1 removes exactly the pages of the range |
| AshmemPinning.ShrinkStep | exercise-09-dec-21/camera/staging/android/ashmem.c:669-680 | cases 2 and 3 remove exactly the overlap |
| AshmemPinning.SplitStep | exercise-09-dec-21/camera/staging/android/ashmem.c:682-690 | case 4 removes exactly the interval and leaves one piece on either side |
| AshmemPinning.SplitOrder | exercise-09-dec-21/camera/staging/android/ashmem.c:687-689 | allocating the upper piece first and shrinking second gives the same tables as the other order |
| AshmemPinning.StatusIsOverlap | exercise-09-dec-21/camera/staging/android/ashmem.c:739-755 | UNPINNED is answered exactly if the interval holds an unpinned page (an empty one: if the page it stands before is unpinned) or an empty range sits strictly inside it |
| AshmemPinning.StatusFromFindsOverlap | exercise-09-dec-21/camera/staging/android/ashmem.c:745-752 | the early break loses nothing: the list runs from high pages to low |
| AshmemPinning.PinFromFrame | exercise-09-dec-21/camera/staging/android/ashmem.c:634-695 | pinning changes nothing but the area's own ranges, lets none end later and makes none empty |
| AshmemUnpinning.UnpinIsUnion | exercise-09-dec-21/camera/staging/android/ashmem.c:702-731 | unpinning is set union: unpinned pages become old plus interval, no purged page loses its mark, other areas are untouched, the new range spans what it absorbed |
| AshmemUnpinning.UnpinFromIsUnion | exercise-09-dec-21/camera/staging/android/ashmem.c:708-730 | the same from any list position and through every restart |
| AshmemUnpinning.UnpinFromMerges | exercise-09-dec-21/camera/staging/android/ashmem.c:720-729 | the purge flag of the merged range is the OR of the absorbed ones, and it is their hull |
| AshmemUnpinning.EarlyReturnIff | exercise-09-dec-21/camera/staging/android/ashmem.c:718-729 | for every interval: no new range is used exactly if one range holds the whole interval, and that early return leaves the tables untouched exactly if the interval is empty or no empty range sits right above it |
| AshmemUnpinning.EarlyReturnChangesNothing | exercise-09-dec-21/camera/staging/android/ashmem.c:718-719 | with no empty range about, the early return happens before anything was deleted, for empty intervals too |
| AshmemUnpinning.UnpinFromBounded | exercise-09-dec-21/camera/staging/android/ashmem.c:721-722 | the merged range never ends beyond the request and what it absorbed |
| AshmemRanges.AllocKeepsInv | exercise-09-dec-21/camera/staging/android/ashmem.c:185-202 | a new range keeps lists descending and disjoint, the LRU list exact and lru_count equal to its pages |
| AshmemRanges.DelKeepsInv | exercise-09-dec-21/camera/staging/android/ashmem.c:208-214 | so does deleting one |
| AshmemRanges.ShrinkKeepsInv | exercise-09-dec-21/camera/staging/android/ashmem.c:228-238 | so does shrinking one, with the count corrected by the pages given up |
| AshmemRanges.LruAfterDel | exercise-09-dec-21/camera/staging/android/ashmem.c:169-173 | the count drops by the pages of the range, in unsigned arithmetic |
| AshmemRequest.AcceptedNamesItsBytes | exercise-09-dec-21/camera/staging/android/ashmem.c:781-794 | a request of nonzero effective length is accepted exactly if aligned, below 4 GiB and inside the area, and then names exactly the pages of its bytes |
| AshmemRequest.ZeroLengthInterval | exercise-09-dec-21/camera/staging/android/ashmem.c:781-794 | what an accepted zero effective length yields: an empty interval, or at offset 0 one that ends at page 2^64 - 1 |
| AshmemRequest.AcceptedInBoundsIff | exercise-09-dec-21/camera/staging/android/ashmem.c:790-794 | an accepted interval lies in the area exactly if it is not the {0, 0} request on an area whose aligned size is a multiple of 4 GiB |
| AshmemRequest.EverythingOnwardIff | exercise-09-dec-21/camera/staging/android/ashmem.c:780-782 | length zero means "everything onward" exactly for areas whose aligned size is below 4 GiB |
| AshmemRequest.LargeAreaExamples | exercise-09-dec-21/camera/staging/android/ashmem.c:781-794 | concrete sizes for each of the deviations |
| AshmemRequest.PageAlign | exercise-09-dec-21/camera/staging/android/ashmem.c:782-790 | rounding up to pages, with the wrap to 0 just below 2^64 |
| AshmemIoctl.PinUnpinKeepsMemInv | exercise-09-dec-21/camera/staging/android/ashmem.c:774-806 | every request keeps: lists and LRU consistent, ranges only in areas with a backing file, ranges inside their area where no request can break that, sizes and files untouched |
| AshmemIoctl.RequestDoes | exercise-09-dec-21/camera/staging/android/ashmem.c:774-806 | a request with no backing file or refused by the range checks answers Invalid and changes nothing; an accepted pin takes exactly the pages it names out of the unpinned set, an unpin puts exactly those in, a status request changes nothing |
| AshmemIoctl.SetSizeDoes | exercise-09-dec-21/camera/staging/android/ashmem.c:828-834 | the size can be set exactly while there is no backing file, and nothing else changes |
| AshmemIoctl.MmapDoes | exercise-09-dec-21/camera/staging/android/ashmem.c:383-425 | a mapping succeeds exactly if the area has a size that rounds up without wrap, the length fits the rounded size, the protection is allowed, and a file is there or can be set up; the area then has that file, and nothing else changes |
| AshmemExact.AnswersAreExactIff | exercise-09-dec-21/camera/staging/android/ashmem.c:739-755 | in every run whose unpins all have nonzero effective length: status and purge report are exact for the pages of the request's own interval if and only if the request has pages, is at offset 0, is on an area below 4 GiB, or the page right after its empty interval would not change the answer |
| AshmemExact.AnswersAreExact | exercise-09-dec-21/camera/staging/android/ashmem.c:739-755 | in the same runs: a status request answers UNPINNED if and only if its interval holds an unpinned page, and a pin WAS_PURGED if and only if it holds a purged one, where an empty interval is judged by the page it stands before |
| AshmemExact.RunKeepsBounds | exercise-09-dec-21/camera/staging/android/ashmem.c:777-794 | in every run without the {0, 0} unpin of a 4 GiB multiple every range lies inside its area, whatever its size; in every run without unpins of effective length zero every range is nonempty as well |
| AshmemExact.RequestKeepsBounds | exercise-09-dec-21/camera/staging/android/ashmem.c:777-801 | the same for one request, for every area size |
| AshmemExact.StepKeepsBounds | exercise-09-dec-21/camera/staging/android/ashmem.c:385-422 | the same for every step of the protocol |
| AshmemExamples.FooledStatusExample | exercise-09-dec-21/camera/staging/android/ashmem.c:781-804 | a run from the empty driver after which the status reads UNPINNED though every page is pinned |
| AshmemExamples.EarlyReturnExample | exercise-09-dec-21/camera/staging/android/ashmem.c:718-725 | a run from the empty driver after which an unpin returns early but has deleted an empty range |
| AshmemExamples.ScanExample | exercise-09-dec-21/camera/staging/android/ashmem.c:472-511 | a run from the empty driver after which a scan for two objects takes a second range although the first had two pages, unlike the scan of the comment |
| AshmemExamples.InconclusiveExample | exercise-09-dec-21/camera/staging/android/ashmem.c:781-804 | a run without zero-length unpins after which a zero-length request inside an area above 4 GiB answers UNPINNED or WAS_PURGED for an interval without pages |
| AshmemIoctl.UnpinAllInBoundsIff | exercise-09-dec-21/camera/staging/android/ashmem.c:781-801 | unpinning everything leaves the ranges inside the area exactly if the aligned size is not a multiple of 4 GiB |
| AshmemIoctl.EmptyRangeFoolsStatus | exercise-09-dec-21/camera/staging/android/ashmem.c:781-804 | a zero-length unpin at the end of a two-page area makes the status read UNPINNED though every page is pinned |
| AshmemIoctl.MmapKeepsInv | exercise-09-dec-21/camera/staging/android/ashmem.c:383-422 | mapping an area keeps the invariant; a backing file comes with a nonzero aligned size |
| AshmemIoctl.SetSizeKeepsInv | exercise-09-dec-21/camera/staging/android/ashmem.c:828-834 | so does setting the size, which is refused once the file exists |
| AshmemIoctl.OpenKeepsInv | exercise-09-dec-21/camera/staging/android/ashmem.c:250-269 | so does opening an area |
| AshmemIoctl.ReleaseForgetsArea | exercise-09-dec-21/camera/staging/android/ashmem.c:279-294 | after release no range of the area is left in the tables or on the LRU list, all others are as they were, and the tables stay consistent |
| AshmemIoctl.ReleaseKeepsMemInv | exercise-09-dec-21/camera/staging/android/ashmem.c:279-294 | release keeps the invariant |
| AshmemIoctl.MarkOldestKeepsInv | exercise-09-dec-21/camera/staging/android/ashmem.c:489-500 | marking takes the head off the LRU list, keeps list and count exact |
| AshmemIoctl.MarkOldestPurges | exercise-09-dec-21/camera/staging/android/ashmem.c:497 | marking makes exactly the pages of the oldest range purged and pins nothing |
| AshmemShrinking.ScanPurgesOldest | exercise-09-dec-21/camera/staging/android/ashmem.c:488-515 | an undisturbed scan purges a prefix of the LRU list in order, as many ranges as nr_to_scan allows, touches nothing else, and returns the drop in lru_count modulo 2^64 |
| AshmemShrinking.ScanReturnsDrop | exercise-09-dec-21/camera/staging/android/ashmem.c:500-515 | with fewer than 2^64 pages on the list the result is the drop itself |
| AshmemShrinking.ScanCountsPagesIff | exercise-09-dec-21/camera/staging/android/ashmem.c:472-511 | the scan equals the one its comment describes, which stops as soon as nr_to_scan pages are freed, exactly if the ranges it takes hold at least nr_to_scan pages, or are all there are, and without the last one hold fewer |
| AshmemShrinking.ScanCountsSinglesIff | exercise-09-dec-21/camera/staging/android/ashmem.c:472-511 | with at least nr_to_scan ranges on the list and none of those empty that is: exactly if all ranges taken but the last are single pages |
| AshmemShrinking.ScanFreesPagesIff | exercise-09-dec-21/camera/staging/android/ashmem.c:488-515 | with at least nr_to_scan ranges on the list and none empty a scan frees at least nr_to_scan pages, and no more exactly if each range it takes is one page |
| AshmemAge.MarkedIsOldest | exercise-09-dec-21/camera/staging/android/ashmem.c:472-498 | in every run the range a shrinker marks joined the LRU list earlier than every other range on it: least recently unpinned first |
| AshmemAge.LruByAge | exercise-09-dec-21/camera/staging/android/ashmem.c:153-160 | in every state of every run the LRU list is ordered by the state since which each range has been on it |
| AshmemAge.JoinsByRequest | exercise-09-dec-21/camera/staging/android/ashmem.c:185-202 | in every run a range joins the LRU list only as the new range of a served request |
| AshmemLruOrder.RequestKeepsAge | exercise-09-dec-21/camera/staging/android/ashmem.c:472-474 | least-recently-unpinned order: after every pin, unpin or status request the ranges still on the LRU list are in their old order and a new one is last |
| AshmemLruOrder.DropKeepsAge | exercise-09-dec-21/camera/staging/android/ashmem.c:285-286 | so is the order after release |
| AshmemLruOrder.AgedMeans | exercise-09-dec-21/camera/staging/android/ashmem.c:153-158 | what that order says position by position: of two old ranges the older stays ahead, the new one is behind all |
| AshmemDriver.Driver.Pin | exercise-09-dec-21/camera/staging/android/ashmem.c:634-695 | the in-place loop computes the set difference and reports purges exactly |
| AshmemDriver.Driver.Unpin | exercise-09-dec-21/camera/staging/android/ashmem.c:702-731 | the in-place loop with its restart computes the set union and the merged range |
| AshmemDriver.Driver.GetPinStatus | exercise-09-dec-21/camera/staging/android/ashmem.c:739-755 | the loop answers whether some range meets the interval; in pages, without empty ranges, for empty intervals too |
| AshmemDriver.Driver.DecodeRequest | exercise-09-dec-21/camera/staging/android/ashmem.c:780-794 | the range checks compute Decode |
| AshmemDriver.Driver.PinUnpin | exercise-09-dec-21/camera/staging/android/ashmem.c:757-814 | the request as a whole keeps the invariant; a pin takes exactly the named pages out of the unpinned set, an unpin puts them in, a status request or refusal changes nothing |
| AshmemDriver.Driver.Release | exercise-09-dec-21/camera/staging/android/ashmem.c:279-294 | both lists lose exactly the area's ranges |
| AshmemDriver.Driver.ShrinkScan | exercise-09-dec-21/camera/staging/android/ashmem.c:476-516 | the scan loop purges a prefix of the LRU list and returns the drop in the count, every trylock succeeding |
| AshmemDriver.Driver.RangeAlloc | exercise-09-dec-21/camera/staging/android/ashmem.c:185-202 | the new range stands before the given list position, and at the LRU tail if not purged; the tables know exactly one more range |
| AshmemDriver.Driver.RangeDel | exercise-09-dec-21/camera/staging/android/ashmem.c:208-214 | the range leaves its list, the LRU list if it was on it, and the tables |
| AshmemDriver.Driver.RangeShrink | exercise-09-dec-21/camera/staging/android/ashmem.c:228-238 | only the bounds change, and the count by the pages given up if the range is on the LRU list |
| AshmemDriver.Driver.LruAdd | exercise-09-dec-21/camera/staging/android/ashmem.c:156-160 | the range joins at the tail and the count grows by its pages modulo 2^64 |
| AshmemDriver.Driver.LruDel | exercise-09-dec-21/camera/staging/android/ashmem.c:169-173 | the range leaves the list and the count drops by its pages modulo 2^64 |
| Imx219Runs.RunIsGood | imx219/imx219.c:672-1021 | over every sequence of format, control, stream and foreign PM steps and every pattern of failing writes: stored code in the table, PM count and flip grabs matching `streaming`, exposure and vblank at or above their floors |
| Imx219Runs.RunKeepsTiming | imx219/imx219.c:679-903 | exposure limits, 16-bit frame length and blanking ranges fit the mode in every state of every run in which format and vblank changes get their writes through; all other writes may fail |
| Imx219Runs.RunKeepsHblank | imx219/imx219.c:900-902 | hblank + width = 3448 in every state of every run that changes the mode only while the sensor is not in use, with any writes failing |
| Imx219Runs.DoKeepsHblankIff | imx219/imx219.c:744-754 | one call keeps hblank + width = 3448 exactly if it does not change the mode while the sensor is in use |
| Imx219Runs.DoKeepsGood | imx219/imx219.c:672-1021 | each callback keeps the run invariant |
| Imx219Runs.DoKeepsTiming | imx219/imx219.c:679-903 | each callback keeps the timing, given the writes of format and vblank changes |
| Imx219Runs.SetStreamFits | imx219/imx219.c:974-1021 | starting and stopping a stream leaves the timing alone, failed or not |
| Imx219Runs.RunIsReadyToStart | imx219/imx219.c:986-999 | every start in every run finds a state for which `StartIsScript` and `StartHonestIff` say what it does |
| Imx219Runs.UserSetDoes | imx219/imx219.c:672-755 | a control set by the user takes the value of its range nearest to the one asked if the call succeeds and keeps its value if it fails; a grabbed flip is refused; a call fails only in use |
| Imx219Runs.HblankIsReadOnly | imx219/imx219.c:672-755 | HBLANK is never set by the user |
| Imx219Start.StartIsScript | imx219/imx219.c:931-960 | from any state in use, starting a stream is: mode and frame-format registers up to the first failure; then the exposure range follows vblank, where a clamping write may fail unnoticed; then every control once in order and stream on, up to the first failure |
| Imx219Start.StartWritesPrefix | imx219/imx219.c:931-960 | if the exposure fits the frame length, then for every failure point the writes made are a prefix of one list and the start succeeds exactly if all of them do |
| Imx219Start.StartHonestIff | imx219/imx219.c:686-690 | over all buses, a successful start means that every attempted write succeeded exactly if the exposure fits the frame length that vblank asks for |
| Imx219Start.StartHidesFailure | imx219/imx219.c:686-690 | if it does not fit, the failure of the one clamping write goes unnoticed and the sensor streams |
| Imx219Start.StartSelectsMode | imx219/imx219.c:931-960 | from any state: once a single write got through, MODE_SELECT is streaming if the start reports success and standby otherwise |
| Imx219Start.SetCtrlIsWrite | imx219/imx219.c:699-752 | re-applying a control in use is its one register write, for vblank after the exposure range has moved |
| Imx219Theorems.SetActiveFormatFits | imx219/imx219.c:877-903 | a format change with successful writes re-establishes exposure limits, 16-bit frame length and blanking ranges for the new mode; the HBLANK value is `HblankFollowsWidthIff` |
| Imx219Theorems.UserSetFits | imx219/imx219.c:679-690 | a user's control change keeps them; only a vblank change needs its writes for that |
| Imx219Theorems.VblankMatchesIff | imx219/imx219.c:679-727 | the exposure limit matches the frame length after a vblank change exactly if nothing changes, the sensor is not in use, or the VTS write succeeds, which is the next one, or the one after if the exposure has to be clamped in use |
| Imx219Theorems.FrameFormatAgrees | imx219/imx219.c:910-929 | imx219_set_framefmt never reaches -EINVAL and the depth it writes is that of the code get_pad_format reports under the current flips |
| Imx219Theorems.StoredCodeInTable | imx219/imx219.c:860-867 | any requested code stores one of the table, of the requested depth if the table has it |
| Imx219Theorems.SetStreamBalanced | imx219/imx219.c:974-1021 | through any power-up or register failure the driver holds one PM reference, and both flips are grabbed, exactly while streaming |
| Imx219Theorems.HblankFollowsWidthIff | imx219/imx219.c:900-902 | hblank + width = 3448 after a format change exactly if the sensor is not in use or the value already fitted: the driver has no case for HBLANK |
| Imx219Theorems.WriteRegsIsPrefix | imx219/imx219.c:594-613 | a register list is written up to the first failure and nothing else changes |
| Imx219Theorems.SetVblankFits | imx219/imx219.c:679-690 | the exposure range moves with vblank, its value clamped and written |
| Imx219Theorems.ModifyExposureMoves | imx219/imx219.c:686-689 | the exposure range moves whatever the bus does, and not at all if it already fits |
| Imx219Mirror.StreamingMirrorsControls | imx219/imx219.c:692-750 | in every run, with any writes failing, every control's register holds the control's value whenever the sensor streams, as long as each format change made while streaming stays in the mode or moves vblank and gets its writes through |
| Imx219Mirror.StartMirrors | imx219/imx219.c:931-960 | a successful start from any state in use leaves every control in its register, whatever was there before |
| Imx219Mirror.UserSetMirrors | imx219/imx219.c:699-750 | a control change while streaming, successful or not, leaves every register in step with its control |
| Imx219Mirror.FormatMirrorsOthers | imx219/imx219.c:877-903 | a format change in use, with any writes failing, leaves every register right but the frame length |
| Imx219Mirror.FormatUpdatesVtsIff | imx219/imx219.c:877-886 | a format change in use with successful writes leaves the frame-length register right exactly if vblank had to move or the mode stayed |
| Imx219Bayer.ReportedOrderFollowsFlips | imx219/imx219.c:616-633 | for all codes and flips: the reported code has the colour pattern of RGGB with columns exchanged exactly if hflip and rows exchanged exactly if vflip, and the bits of the code asked for, 10 for an unknown one |
| Imx219Bayer.StoredOrderFollowsFlips | imx219/imx219.c:860-867 | so has the code that a format change stores |
| Imx219Bayer.TableNames | imx219/imx219.c:421-431 | the colour pattern and depth of every entry of the code table, by position |
| Imx219Bayer.DepthIsNamed | imx219/imx219.c:910-929 | the depth written to the frame-format registers is that of the code's name |
| Imx219Stop.StopSelectsStandby | imx219/imx219.c:962-972 | stopping a stream attempts one write: MODE_SELECT is standby if it gets through and as before if not; the driver stops streaming either way |
| Imx219Stop.SelectionFollowsStreaming | imx219/imx219.c:931-1021 | in every state of every run MODE_SELECT is unwritten, standby or streaming; it is streaming while the driver streams, and while it does not, exactly if the last stop failed and no start has got a write through since |
| Imx219Stop.SelectionAgreesIff | imx219/imx219.c:962-972 | so MODE_SELECT and the driver agree exactly if no stop is lost that way |
| Imx219Stop.StreamSelects | imx219/imx219.c:931-1021 | what one start or stop does to MODE_SELECT, failed or not |
| Imx219Stop.OthersKeepSelection | imx219/imx219.c:672-908 | format, control and PM calls never touch MODE_SELECT |
| Imx219Size.StreamingSizeIsCurrent | imx219/imx219.c:144-384 | in every run, with any writes failing, the size registers 0x016c to 0x016f hold width and height of the mode whenever the sensor streams, as long as the mode is not changed while streaming |
| Imx219Size.StartSetsSize | imx219/imx219.c:931-960 | a successful start from any state sets them to the mode's width and height |
| Imx219Size.ModeListSetsSize | imx219/imx219.c:144-384 | each of the four mode lists programs the size of its own mode |
| Imx219Size.FormatUpdatesSizeIff | imx219/imx219.c:877-903 | a format change programs no size, so afterwards they fit exactly if the mode is the old one |
| Imx219Depth.StreamingDepthIsCurrent | imx219/imx219.c:910-929 | in every run, with any writes failing, the sensor streams at the depth of the code the driver reports, as long as no format change made while streaming asks for another depth |
| Imx219Depth.FormatUpdatesDepthIff | imx219/imx219.c:877-903 | after a format change the frame-format registers fit the reported code exactly if the depth asked for is the old one |
| Imx219Depth.FormatWritesOnlyControls | imx219/imx219.c:877-903 | a format change writes to no register but those of controls, so mode and frame-format registers wait for the next start |
| Imx219Depth.StartSetsDepth | imx219/imx219.c:910-950 | a successful start sets the frame-format registers to the depth of the stored code, whatever was there before |
| Imx219Examples.StaleDepthExample | imx219/imx219.c:877-880 | a run from probe, every write successful, after which the driver reports 8 bits and the sensor sends 10 |
| Imx219Examples.HiddenFailureExample | imx219/imx219.c:686-690 | a run from probe in which a write fails during a start that succeeds and streams |
| Imx219Examples.HblankExample | imx219/imx219.c:900-902 | a run from probe after which hblank + width is not 3448 |
| Imx219Examples.VblankExample | imx219/imx219.c:683-727 | a run from probe after which the exposure limit does not match the frame length |
| Imx219Examples.StaleVtsExample | imx219/imx219.c:877-886 | a run from probe, every write successful, after which the sensor streams with the old mode's frame length |
| Imx219Examples.LostStopExample | imx219/imx219.c:962-972 | a run from probe after which the driver has stopped but the sensor streams, because the one write of the stop failed |
| Imx219Tables.ModeRegs | imx219/imx219.c:144-384 | every mode list starts with standby and never writes MODE_SELECT again |
| Imx219Sensor.Reached | imx219/imx219.c:601-610 | how far a list gets: all writes before it succeed and the next one fails |
| Imx219Driver.Sensor.WriteRegs | imx219/imx219.c:594-613 | the loop writes the prefix before the first failure |
| Imx219Driver.Sensor.GetFormatCode | imx219/imx219.c:616-633 | the search loop returns the code whose colour pattern is RGGB turned by the current flips, at the depth asked for, 10 bits for an unknown code |
| Imx219Driver.Sensor.ApplyCtrl | imx219/imx219.c:692-754 | the in-use test, the switch and the balanced PM reference |
| Imx219Driver.Sensor.SetCtrl | imx219/imx219.c:672-755 | the control callback with its exposure update |
| Imx219Driver.Sensor.ModifyExposure | imx219/imx219.c:683-689 | range change with clamping and a write if the value moves |
| Imx219Driver.Sensor.SetPadFormat | imx219/imx219.c:848-908 | the active-format callback in place, keeping the invariant |
| Imx219Driver.Sensor.StartStreaming | imx219/imx219.c:931-960 | the stages of starting a stream in place |
| Imx219Driver.Sensor.SetStream | imx219/imx219.c:974-1021 | the stream callback in place, with all its failure paths, keeping PM count, grabs and timing |
| Imx219Driver.Sensor.StopStreaming | imx219/imx219.c:962-972 | MODE_SELECT is standby if the one write gets through, and what it was if not |
| Imx219Driver.Sensor.constructor | imx219/imx219.c:1187-1228 | the state probe leaves satisfies the invariant |
| V4lQueue.EveryRunConserves | exercise-10/ov5648/v4l-helpers.h:1576-1630 | over every run of request, create, map and release calls that keeps the lengths of mapped planes, with any system call failing, any starting buffer and any retry: nothing is unmapped that was not mapped, nothing twice, all under its own length, and the rest is still live; every table entry is a live mapping of its plane's length |
| V4lQueue.ApplyKeepsSound | exercise-10/ov5648/v4l-helpers.h:1576-1630 | each call keeps that, successful or not |
| V4lQueue.RequestKeepsSoundIff | exercise-10/ov5648/v4l-helpers.h:1493-1537 | asking for buffers keeps it whatever the kernel answers exactly if none are granted, buffer 0 is not queried, or nothing is mapped |
| V4lQueue.SoundIffLengthsKept | exercise-10/ov5648/v4l-helpers.h:1503-1507 | and for a given answer exactly if no mapped plane changes its length |
| V4lQueue.CarefulRunsReleaseAll | exercise-10/ov5648/v4l-helpers.h:1576-1630 | after any run of intended calls in which releases may fail anywhere, a full release that succeeds in the end leaves nothing mapped, everything ever mapped having been unmapped once under its own length |
| V4lQueue.RunKeepsLoose | exercise-10/ov5648/v4l-helpers.h:1576-1630 | in every state of such a run every live mapping is in the table below the count |
| V4lQueue.MapNeverLeaksIff | exercise-10/ov5648/v4l-helpers.h:1584-1601 | a mapping call leaves the table exact whatever the kernel does exactly if it has at most one plane to map |
| V4lQueue.WrongLengthExample | exercise-10/ov5648/v4l-helpers.h:1503-1507 | a run after which a re-request with longer planes makes the release unmap what was never mapped |
| V4lQueue.LeakExample | exercise-10/ov5648/v4l-helpers.h:1584-1601 | a run from a new queue in which a failed mapping call and a successful full release leave a mapping behind |
| V4lQueue.EveryIntendedRun | exercise-10/ov5648/v4l-helpers.h:1457-1462 | after any run of successful calls that map from the count and release down to at most the count, the getter is non-NULL exactly for index < mappings and plane < num_planes |
| V4lQueue.ApplyKeepsTight | exercise-10/ov5648/v4l-helpers.h:1576-1630 | each such call keeps the table exact and nothing mapped outside it |
| V4lQueue.FullRelease | exercise-10/ov5648/v4l-helpers.h:1603-1630 | a release from 0, after any number of failed attempts, leaves nothing mapped: made and unmapped mappings are the same, each once |
| V4lQueue.ReleaseKeepsLoose | exercise-10/ov5648/v4l-helpers.h:1613-1629 | a failed release keeps every live mapping in the table |
| V4lQueue.FailedMapLeaksIff | exercise-10/ov5648/v4l-helpers.h:1584-1601 | after a failed mapping call the table is still exact exactly if the first mmap was the one that failed; otherwise the mappings made are out of reach |
| V4lQueue.GMmappingIff | exercise-10/ov5648/v4l-helpers.h:1457-1462 | on an exact table the getter is non-NULL exactly for mapped buffers and planes |
| V4lQueue.GetterReturnsGranted | exercise-10/ov5648/v4l-helpers.h:1576-1602 | after a successful intended mapping call the getter returns for every new cell, in order, the address its own mmap granted, and for the old ones what it returned before |
| V4lQueue.MapAllGrants | exercise-10/ov5648/v4l-helpers.h:1584-1601 | a successful mapping loop makes one mmap per cell, stores its address there and leaves other cells alone |
| V4lQueue.AddressesDiffer | exercise-10/ov5648/v4l-helpers.h:1457-1462 | the getter returns different addresses for different buffers and planes |
| V4lQueue.ReleaseKeepsAddresses | exercise-10/ov5648/v4l-helpers.h:1603-1630 | a release, failed or not, changes the address of no cell that stays mapped |
| V4lQueue.CountsFollow | exercise-10/ov5648/v4l-helpers.h:1493-1630 | what each call does to buffer count, mapping count, planes and lengths; a failed one leaves the mapping count |
| V4lBuffers.BufferQueue.MmapBufs | exercise-10/ov5648/v4l-helpers.h:1576-1602 | both loops in place, against the specification, failure included |
| V4lBuffers.BufferQueue.MunmapBufs | exercise-10/ov5648/v4l-helpers.h:1603-1630 | both loops in place, NULL entries skipped, failure included |
| V4lBuffers.BufferQueue.GetMmapping | exercise-10/ov5648/v4l-helpers.h:1457-1462 | reading the table gives GMmapping, NULL outside count and planes |
| V4lBuffers.BufferQueue.ReqBufs | exercise-10/ov5648/v4l-helpers.h:1517-1537 | buffer count, then every buffer queried up to the first missing answer; buffer 0 sets planes and lengths |
| V4lBuffers.BufferQueue.CreateBufs | exercise-10/ov5648/v4l-helpers.h:1549-1574 | more buffers, the new ones queried likewise; planes and lengths only when there were none |
| V4lBuffers.BufferQueue.QueryBufs | exercise-10/ov5648/v4l-helpers.h:1493-1515 | the query loop: success exactly if every buffer answers; buffer 0 alone sets planes and lengths |
| V4lBuffers.BufferQueue.constructor | exercise-10/ov5648/v4l-helpers.h:1422-1433 | an empty queue |
| V4lControls.QueryExtCtrl | exercise-10/ov5648/v4l-helpers.h:1771-1808 | the function with its endless loop terminates for every device and computes `Query`, whose answers on devices that step, that do not, and that have the extended query the lemmas below give |
| V4lControls.StepFindsFirst | exercise-10/ov5648/v4l-helpers.h:1777-1792 | on a device that steps by the NEXT_CTRL and NEXT_COMPOUND bits: one query, of the extended kind exactly if there is one, returns the least id above the given one among the ordinary controls, the compound ones or both, as asked, and EINVAL if there is none; compound ones only with the extended query |
| V4lControls.WalkVisitsAll | exercise-10/ov5648/v4l-helpers.h:1777-1792 | on such a device repeated calls visit each of the controls asked for once, ascending, and miss none |
| V4lControls.CompoundNeedsExtended | exercise-10/ov5648/v4l-helpers.h:1777-1781 | asking for compound controls alone without the extended query is -EINVAL, without asking the device |
| V4lControls.PlainQuery | exercise-10/ov5648/v4l-helpers.h:1791-1808 | without either wish the query is a membership test on either kind of device |
| V4lControls.NextFindsLeast | exercise-10/ov5648/v4l-helpers.h:1777-1808 | on a device that answers for exact ids only: success exactly if a supported id is in reach, then the least one (standard range, then the first private id), else EINVAL |
| V4lControls.ScanFindsLeast | exercise-10/ov5648/v4l-helpers.h:1793-1808 | the same for the loop from any start |
| V4lControls.ScanIsBounded | exercise-10/ov5648/v4l-helpers.h:1793-1806 | how many queries the loop takes at most, for every device answer |
| V4lControls.EnumerationIsComplete | exercise-10/ov5648/v4l-helpers.h:1784-1808 | repeated calls from 0 return each supported standard id once, ascending, and miss none |
| V4lControls.PrivateIdsFollow | exercise-10/ov5648/v4l-helpers.h:1794-1804 | after the last standard id come the private ones one by one, up to the first gap |
| V4lControls.NextAdvancesIff | exercise-10/ov5648/v4l-helpers.h:1784-1808 | a successful next query returns a larger id exactly if it does not start from 0xffffffff |
| V4lControls.LargestIdWraps | exercise-10/ov5648/v4l-helpers.h:1788 | after id 0xffffffff the 32-bit id wraps and the enumeration starts over |
| V4lControls.ExactQuery | exercise-10/ov5648/v4l-helpers.h:1793-1803 | without flags the call is a membership test and leaves the id alone |
| V4lControls.WithFlag | exercise-10/ov5648/v4l-helpers.h:1782-1786 | setting a flag bit changes no other bit |
| CecCodec.RoundTripIff | exercise-10/ov5648/linux/cec-funcs.h:190-241 | parsing undoes building, whatever the target held, exactly for a 1-bit method, 7-bit system and, by channel, 6-bit format and major below 256; a service by identifiers comes back with all three words unless its system is one of the four ATSC codes |
| CecCodec.MajorIsFolded | exercise-10/ov5648/linux/cec-funcs.h:232-236 | how an in-standard channel comes back: bits 8 and 9 of the major folded onto bits 6 and 7, all else right |
| CecCodec.ChannelsConfused | exercise-10/ov5648/linux/cec-funcs.h:234 | two different channels that parse the same |
| CecCodec.EncodeIsInjective | exercise-10/ov5648/linux/cec-funcs.h:190-225 | building loses nothing: in-standard services with equal bytes are the same service |
| CecCodec.ParseThenBuildIff | exercise-10/ov5648/linux/cec-funcs.h:190-241 | building undoes parsing exactly when the reserved bits, and the last two bytes of a channel or of the four ATSC codes, are clear |
| CecCodec.SystemsByCode | exercise-10/ov5648/linux/cec-funcs.h:205-224 | the builder leaves out the network id exactly for the systems 0x01, 0x10, 0x11 and 0x12 |
| CecMessages.RecordOnRoundTripIff | exercise-10/ov5648/linux/cec-funcs.h:243-344 | Record On names its source again exactly if the source type is known and, if digital, recoverable; for an unknown type exactly if byte 2 happened to hold it |
| CecMessages.ClearDigitalTimerRoundTripIff | exercise-10/ov5648/linux/cec-funcs.h:488-532 | the timer comes back exactly if every hour and minute is below 160 and the service is recoverable |
| CecMessages.TunerStatusRoundTripIff | exercise-10/ov5648/linux/cec-funcs.h:965-1022 | the status comes back exactly if flag and display info fit 1 and 7 bits and a digital service is recoverable; the length tells analog from digital |
| CecMessages.SelectDigitalRoundTripIff | exercise-10/ov5648/linux/cec-funcs.h:1064-1076 | the selected service comes back exactly if recoverable |
| CecMessages.BcdRoundTripIff | exercise-10/ov5648/linux/cec-funcs.h:505-508 | a BCD byte comes back exactly for values below 160 |
| CecMessages.BuildersKeepRest | exercise-10/ov5648/linux/cec-funcs.h:243-511 | every builder leaves the header byte and all bytes from its length on, and stays within 16 bytes |
| CecMessages.AnalogRoundTrip | exercise-10/ov5648/linux/cec-funcs.h:259-271 | an analog service always comes back |
| CecCodec.EncodedNumbers | exercise-10/ov5648/linux/cec-funcs.h:193-224 | the seven bytes in arithmetic: 1 + 7 bits, then 6 + 10 bits and a 16-bit minor, or 16-bit identifiers, big-endian; the last two hold the network id for every system but 0x01, 0x10, 0x11 and 0x12, and zero for those |
| CecMessages.RecordOnFormat | exercise-10/ov5648/linux/cec-funcs.h:243-316 | opcode 0x09, source type, every operand at its position, 16-bit ones big-endian, the length of each of the five sources, and the reply |
| CecMessages.ClearDigitalTimerFormat | exercise-10/ov5648/linux/cec-funcs.h:499-510 | opcode 0x99, length 16, date, BCD times, sequence, service positions and reply |
| CecMessages.TunerStatusFormat | exercise-10/ov5648/linux/cec-funcs.h:965-992 | opcode 0x07, 1 + 7 bit status byte, length 10 or 7, position of the digital service or of the analog operands, reply untouched |
| CecMessages.SelectDigitalFormat | exercise-10/ov5648/linux/cec-funcs.h:1064-1070 | opcode 0x93, length 9, service position, reply untouched |
| CecBuffer.Message.SetDigitalServiceId | exercise-10/ov5648/linux/cec-funcs.h:190-225 | the seven bytes of `Encode`, which `EncodedNumbers` gives by system code, are written at the offset and no others |
| CecBuffer.Message.GetDigitalServiceId | exercise-10/ov5648/linux/cec-funcs.h:227-241 | the seven bytes at the offset are decoded into the structure; a channel leaves the high byte of the union as it was |
| CecBuffer.Message.RecordOn | exercise-10/ov5648/linux/cec-funcs.h:292-318 | the five sources dispatched and written in place; an unknown one changes the reply only |
| CecBuffer.Message.OpsRecordOn | exercise-10/ov5648/linux/cec-funcs.h:320-344 | type from byte 2, then the member it selects; the others stay |
| CecBuffer.Message.ClearDigitalTimer | exercise-10/ov5648/linux/cec-funcs.h:488-511 | timer and service written in place, BCD times, reply set |
| CecBuffer.Message.OpsClearDigitalTimer | exercise-10/ov5648/linux/cec-funcs.h:513-532 | date, BCD times, sequence and the service at offset 9 |
| CecBuffer.Message.TunerDeviceStatus | exercise-10/ov5648/linux/cec-funcs.h:965-1007 | status byte and analog or digital service written in place; reply untouched |
| CecBuffer.Message.OpsTunerDeviceStatus | exercise-10/ov5648/linux/cec-funcs.h:1009-1022 | length decides analog or digital; status byte split 1 + 7 |
| CecBuffer.Message.SelectDigitalService | exercise-10/ov5648/linux/cec-funcs.h:1064-1070 | the service written at offset 2 in place |
| CecBuffer.Message.OpsSelectDigitalService | exercise-10/ov5648/linux/cec-funcs.h:1072-1076 | the service at offset 2 |
| Ov5648Registers.FieldsHoldLastRequest | exercise-16/ov5648.c:1457-1470 | after any run of successful mode, flip, auto-exposure and auto-gain settings each field of TC20, TC21 and MANUAL_CTRL holds the last value asked of it; the TC20 debug bit is cleared by a mode and by nothing else |
| Ov5648Registers.RunHoldsCandidate | exercise-16/ov5648.c:1031-1049 | with any transfers failing, each field holds its last successful request or a later failed one |
| Ov5648Registers.RestSurvives | exercise-16/ov5648.c:1031-1049 | bits no setting owns survive every run, successful or not |
| Ov5648Registers.ApplySetsFields | exercise-16/ov5648.c:1457-1692 | one setting leaves the fields it does not ask for alone, failed or not |
| Ov5648Registers.FieldsPartition | exercise-16/ov5648.c:271-279 | fields of one register share no bit and make up the whole register |
| Ov5648Registers.ModeParts | exercise-16/ov5648.c:1330-1504 | of all registers a mode writes, only its two read-modify-writes reach the shared ones |
| Ov5648Registers.Sensor.UpdateBits | exercise-16/ov5648.c:1031-1049 | read, mask, or, write, with both failure paths |
| Ov5648Registers.Sensor.ModeConfigure | exercise-16/ov5648.c:1330-1504 | all register writes of a mode in order, up to the first failure |
| Ov5648Registers.Sensor.FlipVertConfigure | exercise-16/ov5648.c:1676-1683 | both TC20 flip bits follow the request, by read-modify-write, with its failure paths |
| Ov5648Registers.Sensor.FlipHorzConfigure | exercise-16/ov5648.c:1685-1692 | both TC21 flip bits follow the request, likewise |
| Ov5648Registers.Sensor.ExposureAutoConfigure | exercise-16/ov5648.c:1537-1543 | the manual-exposure bit is the opposite of the request, likewise |
| Ov5648Registers.Sensor.GainAutoConfigure | exercise-16/ov5648.c:1594-1599 | the manual-gain bit is the opposite of the request, likewise |

## Left out

- Ashmem names, protection masks, read and llseek, vma setup and the compat ioctl: kernel plumbing or single-branch facts.
- Ashmem allocation failures (-ENOMEM) and failed copies from user space: they return before any table is touched.
- The purge-all ioctl and the shrinker's count callback: one call each into what is modelled.
- Physical removal of pages by the hole punch: a hole is the set of pages that may be lost.
- IMX219 probe, regulators, delays, device-tree checks, TRY formats and colour-space fields: no state the invariants depend on.
- The IMX219 system suspend and resume paths: a failed resume clears `streaming` without the PM count and grabs, so the invariant is stated without it.
- IMX219 control values that the framework has not committed yet: a rejected value is taken as if it had never been stored.
- V4L2 format getters and setters, capability predicates, mem_offsets, USERPTR and DMABUF descriptors: copies without an invariant.
- Failures of REQBUFS and CREATE_BUFS themselves: the queue is then unchanged.
- Two different mappings overlapping in the address space: a mapping is named by its start address.
- The other fields that `v4l_query_ext_ctrl` fills in: copied one by one.
- CEC messages other than the four that embed a digital service: fixed-position byte copies.
- OV5648 power sequencing, reset, PLL arithmetic, exposure, gain, white balance and test pattern values: no shared bits.
- The other copies of the sensor drivers, the C++ and Python programs, and the board files: repeats or device plumbing.
- AshmemDriver.Driver.ShrinkScan: states the undisturbed scan only; interleaved scans are the steps of `AshmemProtocol`, and `LoneScanIsScan` ties the two.
- AshmemIoctl.PinUnpinKeepsMemInv: leaves out the bound for areas whose aligned size is a multiple of 4 GiB, where the {0, 0} unpin breaks it; `AshmemExact.RequestKeepsBounds` has it for every area and every other request.
- Imx219Theorems.UserSetFits: needs the writes of a vblank change; what a failed one leaves is `VblankMatchesIff`.
- Imx219Theorems.SetActiveFormatFits: leaves out the HBLANK value, which does not follow while the sensor is in use; see `DoKeepsHblankIff`.
- Imx219Driver.Sensor.SetPadFormat: leaves out the TRY branch, which only fills in a format the caller owns.
- V4lBuffers.BufferQueue.QueryBufs: leaves out mem_offsets, which only the mmap calls read.
- V4lBuffers.BufferQueue.ReqBufs: leaves out mem_offsets likewise.
- V4lBuffers.BufferQueue.CreateBufs: leaves out mem_offsets likewise.
- Ov5648Registers.ModeParts: leaves out the optional register_values of a mode, which no mode of the driver has.
- Ov5648Registers.Sensor.ModeConfigure: leaves out register_values likewise.
