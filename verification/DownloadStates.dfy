/** The states of a download (gift-ares/lib/as_download.h). */
module DownloadStates {
  /** `Held` is DOWNLOAD_QUEUED, `Finished` DOWNLOAD_COMPLETE, `Broken` DOWNLOAD_FAILED. */
  datatype DownloadState = New | Active | Held | Paused | Verifying | Finished | Broken | Cancelled
}
