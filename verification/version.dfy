/** Which behaviour a model runs where a finding corrects the source: the
    code as written, or the evidently intended version. */
module Versions {

  datatype Version = AsWritten | Corrected
}
