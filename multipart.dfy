/** An uploaded request part (Spring's `MultipartFile`) as the code reads it. */
module Multipart {

  import opened Wrappers

  /** `bytes` is None when reading the content fails with an `IOException`. */
  datatype MultipartFile = MultipartFile(size: int, contentType: Option<string>, bytes: Option<seq<bv8>>)

  predicate IsEmpty(f: MultipartFile) {
    f.size == 0
  }
}
