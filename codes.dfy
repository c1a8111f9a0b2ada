// Command codes, argument flags and reply codes of the xunsearch protocol
// (the XS_CMD_* names). The Go declaration of this table is not part of
// this model; each name carries the value of the xunsearch server's own
// command table. Contracts refer to these names, never to their values;
// the one structural fact the client relies on is bit 0x80 of a command
// (see Connections.Deferred).
module Codes {
  import opened Types

  // The "no argument expected" marker and the basic commands.
  const CmdNone: uint16 := 0
  const CmdUse: byte := 1
  const CmdTimeout: byte := 3

  // Index commands.
  const CmdIndexSetDb: byte := 32
  const CmdIndexSubmit: byte := 34
  const CmdIndexRemove: byte := 35
  const CmdIndexExdata: byte := 36
  const CmdIndexCleanDb: byte := 37
  const CmdIndexCommit: byte := 39
  const CmdIndexRebuild: byte := 40
  const CmdFlushLogging: byte := 41
  const CmdIndexSynonyms: byte := 42

  // Search commands.
  const CmdSearchDbTotal: byte := 64
  const CmdSearchGetTotal: byte := 65
  const CmdSearchGetResult: byte := 66
  const CmdSearchSetDb: byte := CmdIndexSetDb
  const CmdSearchAddDb: byte := 68
  const CmdSearchAddLog: byte := 71
  const CmdSearchGetSynonyms: byte := 72
  const CmdQueryGetString: byte := 96
  const CmdQueryGetTerms: byte := 97
  const CmdQueryGetCorrected: byte := 98
  const CmdQueryGetExpanded: byte := 99

  // Reply commands.
  const CmdOk: byte := 128
  const CmdErr: byte := 129
  const CmdSearchResultDoc: byte := 140
  const CmdSearchResultField: byte := 141
  const CmdSearchResultFacets: byte := 142
  const CmdSearchResultMatched: byte := 143

  // Commands the server does not answer.
  const CmdDocTerm: byte := 160
  const CmdDocValue: byte := 161
  const CmdDocIndex: byte := 162
  const CmdIndexRequest: byte := 163
  const CmdSearchSetCut: byte := 193
  const CmdSearchSetNumeric: byte := 194
  const CmdSearchSetMisc: byte := 200
  const CmdQueryInit: byte := 224
  const CmdQueryParse: byte := 225
  const CmdQueryTerm: byte := 226
  const CmdQueryPrefix: byte := 230
  const CmdQueryParseFlag: byte := 231
  const CmdQueryTerms: byte := 232

  // Argument values.
  const PrefixNormal: byte := 0
  const PrefixBoolean: byte := 1
  const IndexRequestAdd: byte := 0
  const IndexRequestUpdate: byte := 1
  const SynonymsAdd: byte := 0
  const SynonymsDel: byte := 1
  const IndexFlagCheckstem: uint16 := 4
  const ValueFlagNumeric: byte := 128
  const QueryOpAnd: byte := 0
  const QueryOpOr: byte := 1
  const QueryOpAndNot: byte := 2
  const QueryOpXor: byte := 3
  const QueryOpAndMaybe: byte := 4
  const QueryOpFilter: byte := 5
  const ParseFlagBoolean: uint16 := 1
  const ParseFlagPhrase: uint16 := 2
  const ParseFlagLovehate: uint16 := 4
  const ParseFlagAutoMultiwordSynonyms: uint16 := 1536
  const SearchMiscSynScale: byte := 1
  const SearchMiscMatchedTerm: byte := 2
  const SearchMiscWeightScheme: byte := 3

  // Reply arguments (16-bit, carried in Arg1:Arg2).
  const OkProject: uint16 := 201
  const OkQueryString: uint16 := 202
  const OkDbTotal: uint16 := 203
  const OkQueryTerms: uint16 := 204
  const OkQueryCorrected: uint16 := 205
  const OkSearchTotal: uint16 := 206
  const OkResultBegin: uint16 := OkSearchTotal
  const OkResultEnd: uint16 := 207
  const OkTimeoutSet: uint16 := 208
  const OkLogged: uint16 := 210
  const OkRqstFinished: uint16 := 250
  const OkDbChanged: uint16 := 251
  const OkDbClean: uint16 := 253
  const OkDbCommited: uint16 := 256
  const OkDbRebuild: uint16 := 257
  const OkLogFlushed: uint16 := 258
  const OkResultSynonyms: uint16 := 260
}
