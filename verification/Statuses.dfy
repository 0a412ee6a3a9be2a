/** The processing status of a document. */
module Statuses {

  datatype ProcessingStatus = PENDING_PROCESSING | PROCESSING | READY | FAILED_PROCESSING | PARTIAL
}
