TestResult.DisplayName,TestResult.Outcome,TestResult.Duration,TestResult.ResourceCount,RandomSeed
CrossNerTarget.ConvertWithListAccumulator (correctness),Passed,00:00:00.3030088,519688,0
CrossNerTarget.ConvertWithListAccumulator (well-formedness),Passed,00:00:00.2130239,40647,0
