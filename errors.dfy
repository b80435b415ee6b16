/** The exceptions raised while loading the two input files, one variant per kind of error.
    A variant carries exactly the values its message reports. */
module Errors {

  datatype LoadError =
    | FileNotFound(path: string)                      // the input file does not exist
    | MalformedSchema                                 // column count is not 1 + 3N
    | MalformedJointName(x: string, y: string, z: string) // a joint's X/Y/Z names disagree
    | MalformedEdgeLine(line: string)                 // a graph line is not "word space word"
    | CountMismatch                                   // the two files name different numbers of joints
    | NameMismatch                                    // same number of joints, different names or order
}
