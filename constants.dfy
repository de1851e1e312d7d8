/** The extension's fixed values (src/constants.ts). */
module Constants {
  /** Runner path used when no jest path is configured. */
  const DefaultJestPath: string := "node_modules/.bin/jest"

  /** Test-file globs used when the match-pattern setting is not an array. */
  const DefaultTestFilePatterns: seq<string> :=
    ["**/*.{test,spec}.{js,jsx,ts,tsx}", "**/__tests__/*.{js,jsx,ts,tsx}"]
}
