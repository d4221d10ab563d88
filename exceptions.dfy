/** The Python exceptions the icon lookup code can raise. */
module Exceptions {

  datatype Error =
    /** `FileNotFoundError`: the icon directory does not exist. */
    | FileNotFound(path: string)
    /** `IndexError` from `icon_name[0]`: the file name's stem is empty (a file named `.svg`). */
    | IndexError(file: string)
    /** `OSError` from `open(path)`: the path is not a readable file. */
    | OpenFailed(path: string)
    /** `AttributeError` from a rejected attribute assignment. */
    | AttributeError(name: string)
}
